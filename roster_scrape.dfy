/** The roster route of app/api/scrape/route.ts: extracting roster entries
    from table rows, reading the site's "of N Players" marker, paging through
    the roster 15 entries at a time, and the one-entry cache with a one-hour
    time-to-live that fronts it all.

    The browser is replaced by oracles: `launch(i)` says whether the i-th
    browser acquisition succeeds, `first` is the outcome of loading page 1,
    and `site(offset)` is the outcome of asking the site's pagination hook for
    the page at that row offset, and `pageCloses` says whether closing the
    page after the scrape succeeds. The two clock readings of the handler are
    the parameters `now` (the cache check) and `storeTime` (the cache write). */
module RosterScrape {
  import opened Wrappers
  import opened Maths
  import opened Text
  import opened Types
  import opened Collect
  import ApiAuth

  const CacheDurationMs: int := 60 * 60 * 1000
  const PlayersPerPage: nat := 15
  const LaunchAttempts: nat := 3
  const LaunchRetryDelayMs: nat := 1000
  const ScrapeFailed: string := "Failed to complete scraping process. Please try again later."
  const UnknownIdPrefix: string := "unknown-"

  // ---------------------------------------------------------------------
  // Rows

  /** A row matched by the roster table selector: whether it holds a `th`,
      the texts of its `td` cells in order, and the text and `href` of the
      link in its first cell (`""` when there is no link or no `href`). */
  datatype Row = Row(hasHeaderCell: bool, cells: seq<string>, linkText: string, linkHref: string)

  /** The identifier of a roster link: the last '/'-separated segment of
      its URL, or "unknown-<index>" when that segment is empty. */
  function PlayerId(href: string, index: nat): (id: string)
    ensures id != ""
  {
    var last := LastPart(href, '/');
    if last == "" then UnknownIdPrefix + NatToString(index) else last
  }

  /** An identifier taken from the URL is the URL's final segment (a suffix
      free of '/', preceded by '/' unless it is the whole URL); a fallback
      identifier gives back the row index it was made from. */
  lemma PlayerIdFromUrl(href: string, index: nat)
    ensures var id := PlayerId(href, index);
      LastPart(href, '/') != "" ==>
        '/' !in id && |id| <= |href| && href[|href| - |id|..] == id &&
        (|id| < |href| ==> href[|href| - |id| - 1] == '/')
    ensures var id := PlayerId(href, index);
      LastPart(href, '/') == "" ==>
        |id| > |UnknownIdPrefix| && id[..|UnknownIdPrefix|] == UnknownIdPrefix &&
        AllDigits(id[|UnknownIdPrefix|..]) && DigitsValue(id[|UnknownIdPrefix|..]) == index
  {
    var id := PlayerId(href, index);
    if LastPart(href, '/') == "" {
      assert id[|UnknownIdPrefix|..] == NatToString(index);
      DigitsRoundTrip(index);
    }
  }

  /** Two rows of a page whose URLs both end in '/' get different
      identifiers. */
  lemma FallbackIdsDistinct(href1: string, i: nat, href2: string, j: nat)
    requires LastPart(href1, '/') == "" && LastPart(href2, '/') == ""
    requires i != j
    ensures PlayerId(href1, i) != PlayerId(href2, j)
  {
    PlayerIdFromUrl(href1, i);
    PlayerIdFromUrl(href2, j);
  }

  /** The roster entry one row yields, if any; `index` is the row's position
      among all matched rows of its page. */
  function RowToPlayer(row: Row, index: nat): Option<Player> {
    if row.hasHeaderCell || |row.cells| < 7 then None
    else
      var name := Trim(row.linkText);
      if name == "" || row.linkHref == "" then None
      else
        Some(Player(PlayerId(row.linkHref, index), name, row.linkHref,
                    Trim(row.cells[1]), Trim(row.cells[2]), Trim(row.cells[3]),
                    Trim(row.cells[4]), Trim(row.cells[5]), Trim(row.cells[6])))
  }

  /** A row is dropped exactly when it has a header cell, fewer than seven
      cells, a blank link text or an empty link target. */
  lemma RowKept(row: Row, index: nat)
    ensures RowToPlayer(row, index).Some? <==>
      !row.hasHeaderCell && |row.cells| >= 7 && Trim(row.linkText) != "" && row.linkHref != ""
  {
  }

  /** A kept entry has a non-empty identifier, a non-empty name, the link
      target as its profile URL, and every text field trimmed. */
  lemma RowFields(row: Row, index: nat, p: Player)
    requires RowToPlayer(row, index) == Some(p)
    ensures p.id != "" && p.name != "" && p.profileUrl == row.linkHref
    ensures IsTrimmed(p.name) && IsTrimmed(p.team) && IsTrimmed(p.league) && IsTrimmed(p.nationality)
    ensures IsTrimmed(p.age) && IsTrimmed(p.height) && IsTrimmed(p.position)
  {
  }

  /** The entries the rows of one page yield, in table order. */
  function Extracted(rows: seq<Row>): seq<Player> {
    Kept(rows, RowToPlayer)
  }

  /** Every extracted entry comes from a row and carries an identifier. */
  lemma ExtractedIds(rows: seq<Row>)
    ensures forall p :: p in Extracted(rows) ==> p.id != ""
  {
    forall p | p in Extracted(rows) ensures p.id != "" {
      KeptMembers(rows, RowToPlayer, p);
    }
  }

  /** The `each` callback of `scrapePlayersFromHtml` on one row: the early
      returns of its filters, then the entry it would push. */
  method ReadRow(row: Row, index: nat) returns (player: Option<Player>)
    ensures player == RowToPlayer(row, index)
  {
    if row.hasHeaderCell || |row.cells| < 7 {
      return None;
    }
    var name := Trim(row.linkText);
    var profileUrl := row.linkHref;
    if name == "" || profileUrl == "" {
      return None;
    }
    var id := IdFromUrl(profileUrl, index);
    player := Some(Player(id, name, profileUrl,
                          Trim(row.cells[1]), Trim(row.cells[2]), Trim(row.cells[3]),
                          Trim(row.cells[4]), Trim(row.cells[5]), Trim(row.cells[6])));
  }

  /** The identifier statement of the `each` callback: the last part of the
      URL split at '/', or `unknown-<index>` when that part is empty. */
  method IdFromUrl(profileUrl: string, index: nat) returns (id: string)
    ensures id == PlayerId(profileUrl, index)
  {
    var urlParts := Split(profileUrl, '/');
    LastPartOfSplit(profileUrl, '/');
    id := urlParts[|urlParts| - 1];
    if id == "" {
      id := UnknownIdPrefix + NatToString(index);
    }
  }

  /** `scrapePlayersFromHtml`: visits the matched rows in order and pushes
      the entry of each row that passes the filters. */
  method ScrapePlayersFromHtml(rows: seq<Row>) returns (players: seq<Player>)
    ensures players == Extracted(rows)
  {
    players := [];
    var index := 0;
    while index < |rows|
      invariant 0 <= index <= |rows|
      invariant players == Kept(rows[..index], RowToPlayer)
    {
      var player := ReadRow(rows[index], index);
      KeptStep(rows, RowToPlayer, index, player);
      if player.Some? {
        players := players + [player.value];
      }
      index := index + 1;
    }
    assert rows[..|rows|] == rows;
  }

  // ---------------------------------------------------------------------
  // The total-count marker

  const OfMarker: string := "of "
  const PlayersMarker: string := " Players"

  /** The length of the run of decimal digits at the start of `s`. */
  function DigitRun(s: string): (k: nat)
    ensures k <= |s| && AllDigits(s[..k])
    ensures k < |s| ==> !IsDigit(s[k])
    decreases |s|
  {
    if s != [] && IsDigit(s[0]) then
      var k := 1 + DigitRun(s[1..]);
      assert s[..k] == [s[0]] + s[1..][..k - 1];
      k
    else 0
  }

  /** The regular expression /of (\d+) Players/ tried at the start of `s`.
      The digit group is greedy, and as " Players" starts with a non-digit,
      giving digits back can never produce a match. */
  function MatchHere(s: string): Option<nat> {
    if !StartsWith(s, OfMarker) then None
    else
      var k := DigitRun(s[3..]);
      if k >= 1 && StartsWith(s[3 + k..], PlayersMarker) then
        assert s[3..3 + k] == s[3..][..k];
        Some(DigitsValue(s[3..3 + k]))
      else None
  }

  /** `showingText.match(/of (\d+) Players/)` followed by `parseInt` of the
      group: the leftmost match wins. */
  function ParseTotal(s: string): Option<nat>
    decreases |s|
  {
    var m := MatchHere(s);
    if m.Some? || s == [] then m else ParseTotal(s[1..])
  }

  /** The marker as the site prints it is read back as the number printed,
      after any lead-in that ends in a space and holds no "of ". */
  lemma {:induction false} ParseTotalReadsMarker(lead: string, n: nat)
    requires lead == [] || lead[|lead| - 1] == ' '
    requires !Contains(lead, OfMarker)
    ensures ParseTotal(lead + OfMarker + NatToString(n) + PlayersMarker) == Some(n)
    decreases |lead|
  {
    var digits := NatToString(n);
    var s := lead + OfMarker + digits + PlayersMarker;
    if lead == [] {
      assert s[..3] == OfMarker;
      assert s[3..] == digits + PlayersMarker;
      assert DigitRun(s[3..]) == |digits| by {
        DigitRunOfNumeral(digits, PlayersMarker);
      }
      assert s[3 + |digits|..] == PlayersMarker;
      assert s[3..3 + |digits|] == digits;
      DigitsRoundTrip(n);
    } else {
      assert !StartsWith(s, OfMarker) by {
        if |lead| >= 3 {
          assert s[..3] == lead[..3];
        } else if |lead| == 2 {
          assert s[1] == ' ';
        } else {
          assert s[0] == ' ';
        }
      }
      assert !Contains(lead[1..], OfMarker);
      assert s[1..] == lead[1..] + OfMarker + digits + PlayersMarker;
      ParseTotalReadsMarker(lead[1..], n);
    }
  }

  lemma {:induction false} DigitRunOfNumeral(digits: string, rest: string)
    requires AllDigits(digits)
    requires rest != [] && !IsDigit(rest[0])
    ensures DigitRun(digits + rest) == |digits|
    decreases |digits|
  {
    var s := digits + rest;
    if digits == [] {
      assert s == rest;
    } else {
      assert s[0] == digits[0] && IsDigit(digits[0]);
      assert s[1..] == digits[1..] + rest;
      assert AllDigits(digits[1..]);
      DigitRunOfNumeral(digits[1..], rest);
      assert DigitRun(s) == 1 + DigitRun(s[1..]);
    }
  }

  // ---------------------------------------------------------------------
  // Pages

  /** Page `k` of the roster as the site's pagination hook addresses it. */
  function Offset(k: nat): nat
    requires k >= 1
  {
    (k - 1) * PlayersPerPage
  }

  /** `Math.ceil(total / 15)`. */
  function PageCount(total: nat): (pages: nat)
    ensures pages * PlayersPerPage >= total
    ensures pages > 0 ==> (pages - 1) * PlayersPerPage < total
  {
    CeilDiv(total, PlayersPerPage)
  }

  /** A page as loaded: its matched rows and the text of its
      "Showing ... of N Players" cell. */
  datatype Page = Page(rows: seq<Row>, showingText: string)

  /** The outcome of loading a page: on page 1, navigation and the wait for
      the table; on later pages, the pagination hook, the wait for the
      marker to change, and the wait for the table. */
  datatype Load = Loaded(page: Page) | LoadFailed

  /** The entries of a loaded page; a failed load contributes none. */
  function RowsOf(load: Load): seq<Player> {
    match load
    case Loaded(page) => Extracted(page.rows)
    case LoadFailed => []
  }

  /** The page at which pagination from page `k` stops: the first of
      `k..pages` that fails to load, or `pages + 1` when none does. */
  function Stop(site: nat -> Load, k: nat, pages: nat): (j: nat)
    requires 1 <= k <= pages + 1
    ensures k <= j <= pages + 1
    ensures forall m :: k <= m < j ==> site(Offset(m)).Loaded?
    ensures j <= pages ==> site(Offset(j)).LoadFailed?
    decreases pages + 1 - k
  {
    if k > pages || site(Offset(k)).LoadFailed? then k else Stop(site, k + 1, pages)
  }

  /** The entries of pages `k..j-1`, page after page. */
  function PagesRows(site: nat -> Load, k: nat, j: nat): seq<Player>
    requires k >= 1
    decreases j
  {
    if j <= k then [] else PagesRows(site, k, j - 1) + RowsOf(site(Offset(j - 1)))
  }

  lemma PagesRowsStep(site: nat -> Load, j: nat, load: Load, players: seq<Player>)
    requires j >= 2 && load == site(Offset(j)) && load.Loaded? && players == Extracted(load.page.rows)
    ensures PagesRows(site, 2, j + 1) == PagesRows(site, 2, j) + players
  {
  }

  /** Every entry gathered from later pages carries an identifier. */
  lemma {:induction false} PagesRowsIds(site: nat -> Load, k: nat, j: nat)
    requires k >= 1
    ensures forall p :: p in PagesRows(site, k, j) ==> p.id != ""
    decreases j
  {
    if j > k {
      PagesRowsIds(site, k, j - 1);
      match site(Offset(j - 1))
      case Loaded(page) => ExtractedIds(page.rows);
      case LoadFailed =>
    }
  }

  // ---------------------------------------------------------------------
  // The handler

  /** The cached roster: entries, capture time, the site-reported total and
      whether pagination stopped early. */
  datatype CacheEntry = CacheEntry(players: seq<Player>, timestamp: int, expected: nat, partial: bool)

  datatype Source = FromCache | FromScrape

  /** The handler's JSON replies: the full payload (with `browserError` when
      a stale cache stands in for a failed browser launch), the bare
      `{ players }` of the two early returns, and an error with its status. */
  datatype Response =
    | Payload(players: seq<Player>, partial: bool, expected: nat, source: Source, browserFallback: bool)
    | PlayersOnly(players: seq<Player>)
    | ErrorReply(status: nat, error: string)

  /** An entry is served strictly before an hour has passed since capture. */
  predicate IsFresh(e: CacheEntry, now: int) {
    now - e.timestamp < CacheDurationMs
  }

  /** The first of attempts `attempt..2` at which the browser launches. */
  function FirstLaunch(launch: nat -> bool, attempt: nat): (r: Option<nat>)
    requires attempt <= LaunchAttempts
    ensures r.Some? ==> attempt <= r.value < LaunchAttempts && launch(r.value)
    ensures r.Some? ==> forall j :: attempt <= j < r.value ==> !launch(j)
    ensures r.None? ==> forall j :: attempt <= j < LaunchAttempts ==> !launch(j)
    decreases LaunchAttempts - attempt
  {
    if attempt == LaunchAttempts then None
    else if launch(attempt) then Some(attempt)
    else FirstLaunch(launch, attempt + 1)
  }

  /** The handler's opening check: a request whose referer mentions the
      configured site URL (every referer does when it is unset) is internal;
      any other must pass `verifyApiKey`. `None` lets the request through. */
  function Gate(h: ApiAuth.Headers, siteUrl: Option<string>): (r: Option<Response>)
    ensures r.Some? ==> r.value.ErrorReply? && r.value.status == 401
  {
    if Contains(h.referer.GetOr(""), siteUrl.GetOr("")) then None
    else
      var v := ApiAuth.VerifyApiKey(h);
      if v.valid then None else Some(ErrorReply(v.status, v.error.value))
  }

  /** What one request produces: the reply, the cache afterwards, and the
      number of browser launches attempted. */
  datatype Outcome = Outcome(response: Response, cache: Option<CacheEntry>, launches: nat)

  /** The handler, stated without its loops. */
  function Handle(cache: Option<CacheEntry>, h: ApiAuth.Headers, siteUrl: Option<string>, now: int,
                  launch: nat -> bool, first: Load, site: nat -> Load, storeTime: int, pageCloses: bool): Outcome
  {
    var gate := Gate(h, siteUrl);
    if gate.Some? then Outcome(gate.value, cache, 0)
    else if cache.Some? && IsFresh(cache.value, now) then
      Outcome(Payload(cache.value.players, cache.value.partial, cache.value.expected, FromCache, false), cache, 0)
    else
      match FirstLaunch(launch, 0)
      case None =>
        if cache.Some? && |cache.value.players| > 0 then
          Outcome(Payload(cache.value.players, true, cache.value.expected, FromCache, true), cache, LaunchAttempts)
        else Outcome(ErrorReply(500, ScrapeFailed), cache, LaunchAttempts)
      case Some(a) => Scrape(cache, a + 1, first, site, storeTime, pageCloses)
  }

  /** The scrape once a browser is at hand. */
  function Scrape(cache: Option<CacheEntry>, launches: nat, first: Load, site: nat -> Load, storeTime: int, pageCloses: bool): Outcome {
    match first
    case LoadFailed => Outcome(ErrorReply(500, ScrapeFailed), cache, launches)
    case Loaded(page1) =>
      var firstPlayers := Extracted(page1.rows);
      match ParseTotal(page1.showingText)
      case None =>
        if firstPlayers == [] then Outcome(ErrorReply(500, ScrapeFailed), cache, launches)
        else Outcome(PlayersOnly(firstPlayers), cache, launches)
      case Some(total) =>
        var pages := PageCount(total);
        if pages <= 1 then Outcome(PlayersOnly(firstPlayers), cache, launches)
        else
          var stop := Stop(site, 2, pages);
          var players := firstPlayers + PagesRows(site, 2, stop);
          var partial := stop <= pages;
          var newCache := if |players| > 0 then Some(CacheEntry(players, storeTime, total, partial)) else cache;
          if pageCloses then Outcome(Payload(players, partial, total, FromScrape, false), newCache, launches)
          else Outcome(ErrorReply(500, ScrapeFailed), newCache, launches)
  }

  /** The entries a reply carries; an error carries none. */
  function ResponsePlayers(r: Response): seq<Player> {
    match r
    case Payload(players, _, _, _, _) => players
    case PlayersOnly(players) => players
    case ErrorReply(_, _) => []
  }

  /** A request from a page of the configured site passes the gate without
      a key, and when no site URL is configured every request does. */
  lemma InternalRequestsPass(h: ApiAuth.Headers, siteUrl: Option<string>)
    requires siteUrl.None? || (h.referer.Some? && Contains(h.referer.value, siteUrl.value))
    ensures Gate(h, siteUrl).None?
  {
    assert StartsWith(h.referer.GetOr(""), "");
  }

  /** A refused request is answered with the gate's 401 and touches neither
      the cache nor the browser. */
  lemma RefusalTouchesNothing(cache: Option<CacheEntry>, h: ApiAuth.Headers, siteUrl: Option<string>, now: int,
                              launch: nat -> bool, first: Load, site: nat -> Load, storeTime: int, pageCloses: bool)
    requires Gate(h, siteUrl).Some?
    ensures var o := Handle(cache, h, siteUrl, now, launch, first, site, storeTime, pageCloses);
      o.response.ErrorReply? && o.response.status == 401 && o.cache == cache && o.launches == 0
  {
  }

  /** Within the hour, the cached entry is served as it is, with no browser
      launch. */
  lemma FreshCacheServed(cache: Option<CacheEntry>, h: ApiAuth.Headers, siteUrl: Option<string>, now: int,
                         launch: nat -> bool, first: Load, site: nat -> Load, storeTime: int, pageCloses: bool)
    requires Gate(h, siteUrl).None? && cache.Some? && IsFresh(cache.value, now)
    ensures Handle(cache, h, siteUrl, now, launch, first, site, storeTime, pageCloses) ==
      Outcome(Payload(cache.value.players, cache.value.partial, cache.value.expected, FromCache, false), cache, 0)
  {
  }

  /** A reply marked as coming from the cache repeats the cached entry and
      leaves it in place; it is the browser fallback exactly when the entry
      was stale, and then it is marked partial. */
  lemma CachedRepliesRepeatEntry(cache: Option<CacheEntry>, h: ApiAuth.Headers, siteUrl: Option<string>, now: int,
                                 launch: nat -> bool, first: Load, site: nat -> Load, storeTime: int, pageCloses: bool)
    requires var o := Handle(cache, h, siteUrl, now, launch, first, site, storeTime, pageCloses);
      o.response.Payload? && o.response.source == FromCache
    ensures var o := Handle(cache, h, siteUrl, now, launch, first, site, storeTime, pageCloses);
      cache.Some? && o.cache == cache &&
      o.response.players == cache.value.players && o.response.expected == cache.value.expected &&
      (o.response.browserFallback <==> !IsFresh(cache.value, now)) &&
      (o.response.browserFallback ==> o.response.partial && |cache.value.players| > 0 && o.launches == LaunchAttempts) &&
      (!o.response.browserFallback ==> o.response.partial == cache.value.partial)
  {
  }

  /** At most three launches are attempted, and none unless the request
      passed the gate and missed a fresh cache. */
  lemma LaunchesBounded(cache: Option<CacheEntry>, h: ApiAuth.Headers, siteUrl: Option<string>, now: int,
                        launch: nat -> bool, first: Load, site: nat -> Load, storeTime: int, pageCloses: bool)
    ensures var o := Handle(cache, h, siteUrl, now, launch, first, site, storeTime, pageCloses);
      o.launches <= LaunchAttempts &&
      (o.launches == 0 <==> Gate(h, siteUrl).Some? || (cache.Some? && IsFresh(cache.value, now)))
  {
  }

  /** When all three launches fail, a stale entry with players is served as
      a partial fallback, and otherwise the reply is a 500; the cache stays. */
  lemma LaunchFailureFallsBack(cache: Option<CacheEntry>, h: ApiAuth.Headers, siteUrl: Option<string>, now: int,
                               launch: nat -> bool, first: Load, site: nat -> Load, storeTime: int, pageCloses: bool)
    requires Gate(h, siteUrl).None? && !(cache.Some? && IsFresh(cache.value, now))
    requires forall i :: 0 <= i < LaunchAttempts ==> !launch(i)
    ensures var o := Handle(cache, h, siteUrl, now, launch, first, site, storeTime, pageCloses);
      o.cache == cache && o.launches == LaunchAttempts &&
      o.response == if cache.Some? && |cache.value.players| > 0
                    then Payload(cache.value.players, true, cache.value.expected, FromCache, true)
                    else ErrorReply(500, ScrapeFailed)
  {
  }

  /** The bare `{ players }` reply is page 1 alone, sent when the total
      could not be read (and page 1 had entries) or fits on one page; the
      cache is not written. */
  lemma BareRepliesArePageOne(cache: Option<CacheEntry>, h: ApiAuth.Headers, siteUrl: Option<string>, now: int,
                              launch: nat -> bool, first: Load, site: nat -> Load, storeTime: int, pageCloses: bool)
    requires Handle(cache, h, siteUrl, now, launch, first, site, storeTime, pageCloses).response.PlayersOnly?
    ensures var o := Handle(cache, h, siteUrl, now, launch, first, site, storeTime, pageCloses);
      o.cache == cache && first.Loaded? && o.response.players == Extracted(first.page.rows) &&
      match ParseTotal(first.page.showingText)
      case None => o.response.players != []
      case Some(total) => PageCount(total) <= 1
  {
  }

  /** Once a browser is at hand, the early exits answer from page 1 alone and
      leave the cache: a failed page 1 is the 500; an unreadable total is the
      500 when page 1 has no entries and page 1's entries otherwise; a total
      that fits on one page is page 1's entries. */
  lemma PageOneReplies(cache: Option<CacheEntry>, h: ApiAuth.Headers, siteUrl: Option<string>, now: int,
                       launch: nat -> bool, first: Load, site: nat -> Load, storeTime: int, pageCloses: bool)
    requires Gate(h, siteUrl).None? && !(cache.Some? && IsFresh(cache.value, now)) && FirstLaunch(launch, 0).Some?
    ensures var o := Handle(cache, h, siteUrl, now, launch, first, site, storeTime, pageCloses);
      first.LoadFailed? ==> o.response == ErrorReply(500, ScrapeFailed) && o.cache == cache
    ensures var o := Handle(cache, h, siteUrl, now, launch, first, site, storeTime, pageCloses);
      first.Loaded? && ParseTotal(first.page.showingText).None? && Extracted(first.page.rows) == [] ==>
        o.response == ErrorReply(500, ScrapeFailed) && o.cache == cache
    ensures var o := Handle(cache, h, siteUrl, now, launch, first, site, storeTime, pageCloses);
      first.Loaded? && ParseTotal(first.page.showingText).None? && Extracted(first.page.rows) != [] ==>
        o.response == PlayersOnly(Extracted(first.page.rows)) && o.cache == cache
    ensures var o := Handle(cache, h, siteUrl, now, launch, first, site, storeTime, pageCloses);
      first.Loaded? && ParseTotal(first.page.showingText).Some? && PageCount(ParseTotal(first.page.showingText).value) <= 1 ==>
        o.response == PlayersOnly(Extracted(first.page.rows)) && o.cache == cache
  {
  }

  /** A scraped payload holds page 1 and then every later page up to the
      first one that failed to load; it is partial exactly when some page of
      `2..pages` failed, and it reports the total page 1 announced. */
  lemma ScrapedPayload(cache: Option<CacheEntry>, h: ApiAuth.Headers, siteUrl: Option<string>, now: int,
                       launch: nat -> bool, first: Load, site: nat -> Load, storeTime: int, pageCloses: bool)
    requires var o := Handle(cache, h, siteUrl, now, launch, first, site, storeTime, pageCloses);
      o.response.Payload? && o.response.source == FromScrape
    ensures var o := Handle(cache, h, siteUrl, now, launch, first, site, storeTime, pageCloses);
      var pages := PageCount(o.response.expected);
      first.Loaded? && ParseTotal(first.page.showingText) == Some(o.response.expected) && pages >= 2 &&
      !o.response.browserFallback &&
      o.response.players == Extracted(first.page.rows) + PagesRows(site, 2, Stop(site, 2, pages)) &&
      (o.response.partial <==> exists m :: 2 <= m <= pages && site(Offset(m)).LoadFailed?)
  {
    var o := Handle(cache, h, siteUrl, now, launch, first, site, storeTime, pageCloses);
    var pages := PageCount(o.response.expected);
    var stop := Stop(site, 2, pages);
    if !o.response.partial {
      assert stop == pages + 1;
      forall m | 2 <= m <= pages ensures site(Offset(m)).Loaded? {
      }
    }
  }

  /** When every later page loads, the payload is complete: all pages, in
      order, and not partial. */
  lemma AllPagesLoaded(site: nat -> Load, pages: nat)
    requires pages >= 1
    requires forall m :: 2 <= m <= pages ==> site(Offset(m)).Loaded?
    ensures Stop(site, 2, pages) == pages + 1
  {
  }

  /** A non-empty scraped payload is always stored, stamped with the time of
      the write. The cache changes only to store such a payload, or the one a
      scrape gathered before closing its page failed. */
  lemma CacheWrites(cache: Option<CacheEntry>, h: ApiAuth.Headers, siteUrl: Option<string>, now: int,
                    launch: nat -> bool, first: Load, site: nat -> Load, storeTime: int, pageCloses: bool)
    ensures var o := Handle(cache, h, siteUrl, now, launch, first, site, storeTime, pageCloses);
      var stored := o.response.Payload? && o.response.source == FromScrape && o.response.players != [];
      (stored ==> o.cache == Some(CacheEntry(o.response.players, storeTime, o.response.expected, o.response.partial))) &&
      (!stored && pageCloses ==> o.cache == cache) &&
      (o.cache != cache ==>
        o.cache.Some? && o.cache.value.timestamp == storeTime && o.cache.value.players != [] &&
        (stored || (!pageCloses && o.response == ErrorReply(500, ScrapeFailed))))
  {
  }

  /** When closing the page throws after a scrape, the reply becomes the 500
      error, yet the entry written just before stays cached, exactly as if the
      page had closed. */
  lemma CloseFailureKeepsEntry(cache: Option<CacheEntry>, h: ApiAuth.Headers, siteUrl: Option<string>, now: int,
                               launch: nat -> bool, first: Load, site: nat -> Load, storeTime: int)
    requires var o := Handle(cache, h, siteUrl, now, launch, first, site, storeTime, true);
      o.response.Payload? && o.response.source == FromScrape
    ensures var closed := Handle(cache, h, siteUrl, now, launch, first, site, storeTime, true);
      var o := Handle(cache, h, siteUrl, now, launch, first, site, storeTime, false);
      o.response == ErrorReply(500, ScrapeFailed) && o.cache == closed.cache && o.launches == closed.launches
  {
  }

  /** Every entry the handler replies with or caches has an identifier,
      provided the entries already cached had one. */
  lemma EntriesHaveIds(cache: Option<CacheEntry>, h: ApiAuth.Headers, siteUrl: Option<string>, now: int,
                       launch: nat -> bool, first: Load, site: nat -> Load, storeTime: int, pageCloses: bool)
    requires cache.Some? ==> forall p :: p in cache.value.players ==> p.id != ""
    ensures var o := Handle(cache, h, siteUrl, now, launch, first, site, storeTime, pageCloses);
      (forall p :: p in ResponsePlayers(o.response) ==> p.id != "") &&
      (o.cache.Some? ==> forall p :: p in o.cache.value.players ==> p.id != "")
  {
    var launched := FirstLaunch(launch, 0);
    if Gate(h, siteUrl).None? && !(cache.Some? && IsFresh(cache.value, now)) && launched.Some? {
      ScrapeIds(cache, launched.value + 1, first, site, storeTime, pageCloses);
    }
  }

  /** The same for a scrape with a browser at hand. */
  lemma ScrapeIds(cache: Option<CacheEntry>, launches: nat, first: Load, site: nat -> Load, storeTime: int, pageCloses: bool)
    requires cache.Some? ==> forall p :: p in cache.value.players ==> p.id != ""
    ensures var o := Scrape(cache, launches, first, site, storeTime, pageCloses);
      (forall p :: p in ResponsePlayers(o.response) ==> p.id != "") &&
      (o.cache.Some? ==> forall p :: p in o.cache.value.players ==> p.id != "")
  {
    if first.Loaded? {
      var firstPlayers := Extracted(first.page.rows);
      ExtractedIds(first.page.rows);
      var total := ParseTotal(first.page.showingText);
      if total.Some? && PageCount(total.value) >= 2 {
        var rest := PagesRows(site, 2, Stop(site, 2, PageCount(total.value)));
        PagesRowsIds(site, 2, Stop(site, 2, PageCount(total.value)));
        assert forall p :: p in firstPlayers + rest ==> p in firstPlayers || p in rest;
      }
    }
  }

  /** A second request within the hour of a cache write is answered from
      the cache with exactly what the first request returned. */
  lemma RepeatWithinHour(cache: Option<CacheEntry>, h: ApiAuth.Headers, siteUrl: Option<string>, now: int,
                         launch: nat -> bool, first: Load, site: nat -> Load, storeTime: int, pageCloses: bool,
                         h2: ApiAuth.Headers, now2: int, launch2: nat -> bool, first2: Load, site2: nat -> Load,
                         storeTime2: int, pageCloses2: bool)
    requires var o := Handle(cache, h, siteUrl, now, launch, first, site, storeTime, pageCloses);
      o.response.Payload? && o.response.source == FromScrape && o.response.players != []
    requires Gate(h2, siteUrl).None? && now2 - storeTime < CacheDurationMs
    ensures var o := Handle(cache, h, siteUrl, now, launch, first, site, storeTime, pageCloses);
      var o2 := Handle(o.cache, h2, siteUrl, now2, launch2, first2, site2, storeTime2, pageCloses2);
      o2.response == o.response.(source := FromCache) && o2.cache == o.cache && o2.launches == 0
  {
    CacheWrites(cache, h, siteUrl, now, launch, first, site, storeTime, pageCloses);
  }

  /** Once the entry is an hour old, a request that gets a browser scrapes
      again instead of answering from the cache. */
  lemma StaleCacheRescraped(cache: Option<CacheEntry>, h: ApiAuth.Headers, siteUrl: Option<string>, now: int,
                            launch: nat -> bool, first: Load, site: nat -> Load, storeTime: int, pageCloses: bool)
    requires Gate(h, siteUrl).None? && cache.Some? && !IsFresh(cache.value, now)
    requires FirstLaunch(launch, 0).Some?
    ensures var o := Handle(cache, h, siteUrl, now, launch, first, site, storeTime, pageCloses);
      !(o.response.Payload? && o.response.source == FromCache) && o.launches >= 1
  {
  }

  /** The pagination loop of `GET`: pages 2 to `totalPages` in turn, each
      one's entries appended, until a page fails to load. */
  method ScrapeRemainingPages(site: nat -> Load, totalPages: nat, firstPlayers: seq<Player>)
    returns (allPlayers: seq<Player>, paginationErrorOccurred: bool)
    requires totalPages >= 2
    ensures allPlayers == firstPlayers + PagesRows(site, 2, Stop(site, 2, totalPages))
    ensures paginationErrorOccurred <==> Stop(site, 2, totalPages) <= totalPages
  {
    allPlayers := firstPlayers;
    paginationErrorOccurred := false;
    var currentPageNum := 2;
    while currentPageNum <= totalPages
      invariant 2 <= currentPageNum <= totalPages + 1
      invariant Stop(site, 2, totalPages) == Stop(site, currentPageNum, totalPages)
      invariant allPlayers == firstPlayers + PagesRows(site, 2, currentPageNum)
      invariant !paginationErrorOccurred
      decreases totalPages + 1 - currentPageNum
    {
      var load := site(Offset(currentPageNum));
      if load.LoadFailed? {
        paginationErrorOccurred := true;
        break;
      }
      var pagePlayers := ScrapePlayersFromHtml(load.page.rows);
      PagesRowsStep(site, currentPageNum, load, pagePlayers);
      AppendAssoc(firstPlayers, PagesRows(site, 2, currentPageNum), pagePlayers);
      allPlayers := allPlayers + pagePlayers;
      currentPageNum := currentPageNum + 1;
    }
    assert currentPageNum == Stop(site, 2, totalPages);
  }

  /** The browser acquisition loop of `GET`: up to three launch attempts,
      stopping at the first success. A failed attempt with attempts left is
      followed by a pause of LaunchRetryDelayMs, so the pauses fall exactly
      between consecutive attempts. */
  method LaunchBrowser(launch: nat -> bool) returns (acquired: bool, launches: nat, pauses: seq<nat>)
    ensures acquired <==> FirstLaunch(launch, 0).Some?
    ensures acquired ==> launches == FirstLaunch(launch, 0).value + 1
    ensures !acquired ==> launches == LaunchAttempts
    ensures |pauses| + 1 == launches
    ensures forall i :: 0 <= i < |pauses| ==> pauses[i] == LaunchRetryDelayMs
  {
    launches := 0;
    acquired := false;
    pauses := [];
    var retryCount := LaunchAttempts;
    while retryCount > 0
      invariant 0 <= retryCount <= LaunchAttempts
      invariant launches == LaunchAttempts - retryCount
      invariant |pauses| == if retryCount == 0 then launches - 1 else launches
      invariant forall i :: 0 <= i < |pauses| ==> pauses[i] == LaunchRetryDelayMs
      invariant FirstLaunch(launch, 0) == FirstLaunch(launch, launches)
      invariant !acquired
      decreases retryCount
    {
      launches := launches + 1;
      if launch(launches - 1) {
        acquired := true;
        break;
      }
      retryCount := retryCount - 1;
      if retryCount > 0 {
        pauses := pauses + [LaunchRetryDelayMs];
      }
    }
  }

  /** The module-level cache and the `GET` handler. */
  class RosterService {
    var cache: Option<CacheEntry>

    constructor()
      ensures cache == None
    {
      cache := None;
    }

    /** `GET`: the gate, the cache check, up to three browser launches, then
        the scrape. */
    method Get(h: ApiAuth.Headers, siteUrl: Option<string>, now: int,
               launch: nat -> bool, first: Load, site: nat -> Load, storeTime: int, pageCloses: bool)
      returns (response: Response, launches: nat)
      modifies this
      ensures Outcome(response, cache, launches) == Handle(old(cache), h, siteUrl, now, launch, first, site, storeTime, pageCloses)
    {
      launches := 0;
      var referer := h.referer.GetOr("");
      if !Contains(referer, siteUrl.GetOr("")) {
        var verification := ApiAuth.VerifyApiKey(h);
        if !verification.valid {
          response := ErrorReply(verification.status, verification.error.value);
          return;
        }
      }

      if cache.Some? && now - cache.value.timestamp < CacheDurationMs {
        response := Payload(cache.value.players, cache.value.partial, cache.value.expected, FromCache, false);
        return;
      }

      var acquired, pauses;
      acquired, launches, pauses := LaunchBrowser(launch);
      if !acquired {
        if cache.Some? && |cache.value.players| > 0 {
          response := Payload(cache.value.players, true, cache.value.expected, FromCache, true);
          return;
        }
        response := ErrorReply(500, ScrapeFailed);
        return;
      }
      response := ScrapeWithBrowser(launches, first, site, storeTime, pageCloses);
    }

    /** The part of `GET` that runs with a browser: page 1, the total, the
        remaining pages and the cache update. */
    method ScrapeWithBrowser(launches: nat, first: Load, site: nat -> Load, storeTime: int, pageCloses: bool)
      returns (response: Response)
      modifies this
      ensures Outcome(response, cache, launches) == Scrape(old(cache), launches, first, site, storeTime, pageCloses)
    {
      if first.LoadFailed? {
        response := ErrorReply(500, ScrapeFailed);
        return;
      }
      var allPlayers := ScrapePlayersFromHtml(first.page.rows);
      var total := ParseTotal(first.page.showingText);
      if total.None? {
        if |allPlayers| == 0 {
          response := ErrorReply(500, ScrapeFailed);
          return;
        }
        response := PlayersOnly(allPlayers);
        return;
      }
      var totalPages := PageCount(total.value);
      if totalPages <= 1 {
        response := PlayersOnly(allPlayers);
        return;
      }
      var paginationErrorOccurred;
      allPlayers, paginationErrorOccurred := ScrapeRemainingPages(site, totalPages, allPlayers);
      if |allPlayers| > 0 {
        cache := Some(CacheEntry(allPlayers, storeTime, total.value, paginationErrorOccurred));
      }
      if !pageCloses {
        response := ErrorReply(500, ScrapeFailed);
        return;
      }
      response := Payload(allPlayers, paginationErrorOccurred, total.value, FromScrape, false);
    }
  }
}
