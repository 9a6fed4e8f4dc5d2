/** The detail-page extractors of app/api/player-details/scraperUtils.ts.

    The parsed page is given as the elements and rows the selectors would
    match: an element is its text and attributes (`None` when the selector
    matches nothing), a row is the texts of its cells. `parseFloat` is a
    parameter: it yields `None` where JavaScript yields NaN. */
module PlayerDetailsScrape {
  import opened Wrappers
  import opened Text
  import opened Types
  import opened Collect

  /** A matched element: its text content and its attributes. */
  datatype Element = Element(text: string, attributes: map<string, string>)

  /** `safeGetText`: the trimmed text, or "" when nothing matched. */
  function SafeGetText(e: Option<Element>): (r: string)
    ensures IsTrimmed(r)
    ensures r == [] <==> e.None? || AllSpace(e.value.text)
  {
    match e
    case None => ""
    case Some(el) => Trim(el.text)
  }

  /** `safeGetAttr`: the trimmed attribute, or `None` when nothing matched or
      the attribute is absent or empty. */
  function SafeGetAttr(e: Option<Element>, name: string): (r: Option<string>)
    ensures r.Some? <==> e.Some? && name in e.value.attributes && e.value.attributes[name] != ""
    ensures r.Some? ==> IsTrimmed(r.value) && |r.value| <= |e.value.attributes[name]|
  {
    match e
    case None => None
    case Some(el) =>
      if name in el.attributes && el.attributes[name] != "" then Some(Trim(el.attributes[name])) else None
  }

  /** The trimmed text of cell `i`; an index past the end selects nothing. */
  function CellText(cells: seq<string>, i: nat): (r: string)
    ensures IsTrimmed(r)
    ensures i >= |cells| ==> r == ""
  {
    if i < |cells| then Trim(cells[i]) else ""
  }

  // ---------------------------------------------------------------------
  // Helpers

  /** `extractValueAfterColon`: split on ':', and rejoin all parts after the
      first, or keep the whole text when there is no colon; then trim. */
  function ExtractValueAfterColon(text: string): string {
    var parts := Split(text, ':');
    if |parts| > 1 then Trim(Join(parts[1..], ':')) else Trim(text)
  }

  /** The value is the trimmed text after the first colon (later colons
      kept), or the trimmed text when there is no colon. */
  lemma {:induction false} ValueAfterFirstColon(text: string)
    ensures ':' in text ==>
      (IndexOf(text, [':']).Some? &&
       ExtractValueAfterColon(text) == Trim(text[IndexOf(text, [':']).value + 1..]))
    ensures ':' !in text ==> ExtractValueAfterColon(text) == Trim(text)
  {
    var parts := Split(text, ':');
    if ':' in text {
      SplitTail(text, ':');
      assert |parts| > 1;
      assert ExtractValueAfterColon(text) == Trim(Join(parts[1..], ':'));
    } else {
      assert |parts| == 1;
    }
  }

  /** A label without a colon, a colon, and a value: the value comes back
      trimmed. */
  lemma {:induction false} LabelledValue(caption: string, value: string)
    requires ':' !in caption
    ensures ExtractValueAfterColon(caption + ":" + value) == Trim(value)
  {
    var text := caption + ":" + value;
    assert text[|caption|] == ':';
    ValueAfterFirstColon(text);
    assert forall j :: 0 <= j < |caption| ==> text[j] == caption[j];
    assert StartsWith(text[|caption|..], [':']);
    IndexOfFirst(text, [':'], |caption|);
    assert text[|caption| + 1..] == value;
  }

  /** `parseNumberSafe`: `None` for the empty string and for what
      `parseFloat` cannot read. */
  function ParseNumberSafe(value: string, parseFloat: string -> Option<real>): (r: Option<real>)
    ensures value == "" ==> r.None?
    ensures value != "" ==> r == parseFloat(value)
  {
    if value == "" then None else parseFloat(value)
  }

  /** `parseNumberSafe(...) || 0`: absent numbers (and 0 itself) give 0. */
  function NumberOrZero(n: Option<real>): (r: real)
    ensures n.Some? ==> r == n.value
    ensures n.None? ==> r == 0.0
  {
    match n
    case Some(v) => v
    case None => 0.0
  }

  // ---------------------------------------------------------------------
  // Basic information

  const ProfileSuffix: string := " basketball profile"
  const SiteOrigin: string := "https://www.asia-basket.com"
  const HttpPrefix: string := "http"

  /** The name from the page title: the first case-insensitive
      " basketball profile" removed, then trimmed. */
  function CleanName(title: Option<Element>): (name: string)
    ensures IsTrimmed(name)
  {
    Trim(ReplaceFirstIgnoreCase(SafeGetText(title), ProfileSuffix))
  }

  /** No proper suffix of `p` is also a prefix of it. */
  predicate Unbordered(p: string) {
    forall k :: 0 < k < |p| ==> p[k..] != p[..|p| - k]
  }

  /** The lower-cased " basketball profile" has no border, so an occurrence
      cannot straddle a name and the suffix that follows it. */
  lemma {:induction false} ProfileSuffixUnbordered()
    ensures Unbordered(LowerAscii(ProfileSuffix))
  {
    var lp := LowerAscii(ProfileSuffix);
    assert lp == " basketball profile";
    forall k | 0 < k < |lp| ensures lp[k..] != lp[..|lp| - k] {
      if k == 11 {
        assert lp[k..][1] == 'p' && lp[..|lp| - k][1] == 'b';
      } else {
        assert lp[k..][0] != lp[..|lp| - k][0];
      }
    }
  }

  /** A position at which `p` occurs, with no earlier one, is `indexOf`. */
  lemma IndexOfFirst(s: string, p: string, i: nat)
    requires i <= |s| && StartsWith(s[i..], p)
    requires forall j :: 0 <= j < i ==> !StartsWith(s[j..], p)
    ensures IndexOf(s, p) == Some(i)
  {
    ContainsAt(s, p);
  }

  /** An unbordered pattern appended to a text that lacks it is first found
      where it was appended. */
  lemma FoundWhereAppended(a: string, p: string)
    requires p != [] && Unbordered(p) && !Contains(a, p)
    ensures IndexOf(a + p, p) == Some(|a|)
  {
    var s := a + p;
    assert s[|a|..] == p;
    forall j | 0 <= j < |a|
      ensures !StartsWith(s[j..], p)
    {
      if StartsWith(s[j..], p) {
        if j + |p| <= |a| {
          assert a[j..][..|p|] == s[j..][..|p|];
          ContainsAt(a, p);
        } else {
          StraddleIsBorder(a, p, j);
        }
        assert false;
      }
    }
    IndexOfFirst(s, p, |a|);
  }

  /** An occurrence starting inside `a` and ending inside the appended `p`
      makes a proper suffix of `p` equal to a prefix of it. */
  lemma StraddleIsBorder(a: string, p: string, j: nat)
    requires j < |a| < j + |p| && StartsWith((a + p)[j..], p)
    ensures p[|a| - j..] == p[..|p| - (|a| - j)]
  {
    var s := a + p;
    var k := |a| - j;
    forall i | 0 <= i < |p| - k ensures p[k..][i] == p[..|p| - k][i] {
      assert s[j..][k + i] == s[|a|..][i];
    }
  }

  lemma LowerAsciiAppend(a: string, b: string)
    ensures LowerAscii(a + b) == LowerAscii(a) + LowerAscii(b)
  {
  }

  /** The title the site prints, "<name> basketball profile" (with the
      suffix in any letter case), gives back the name, provided the name is
      trimmed, non-empty and does not itself contain the suffix. */
  lemma {:induction false} TitleGivesName(name: string, suffix: string)
    requires name != [] && IsTrimmed(name)
    requires |suffix| == |ProfileSuffix| && LowerAscii(suffix) == LowerAscii(ProfileSuffix)
    requires !Contains(LowerAscii(name), LowerAscii(ProfileSuffix))
    ensures CleanName(Some(Element(name + suffix, map[]))) == name
  {
    var p := ProfileSuffix;
    var s := name + suffix;
    assert LowerAscii(suffix)[|suffix| - 1] == 'e';
    assert IsTrimmed(s);
    TrimOfTrimmed(s);
    LowerAsciiAppend(name, suffix);
    ProfileSuffixUnbordered();
    FoundWhereAppended(LowerAscii(name), LowerAscii(p));
    assert s[..|name|] == name;
    assert s[|name| + |p|..] == [];
    assert ReplaceFirstIgnoreCase(s, p) == name;
    TrimOfTrimmed(name);
  }

  /** The image source made absolute: kept when it starts with "http",
      otherwise prefixed with the site origin and a '/' when it lacks one. */
  function Absolutize(src: string): (url: string)
    ensures StartsWith(url, HttpPrefix)
    ensures StartsWith(src, HttpPrefix) ==> url == src
    ensures !StartsWith(src, HttpPrefix) ==>
      |url| >= |SiteOrigin| + 1 && url[..|SiteOrigin|] == SiteOrigin && url[|SiteOrigin|] == '/' &&
      |src| <= |url| <= |SiteOrigin| + 1 + |src| && url[|url| - |src|..] == src
  {
    if StartsWith(src, HttpPrefix) then src
    else
      var url := SiteOrigin + (if StartsWith(src, "/") then "" else "/") + src;
      assert url[..|HttpPrefix|] == HttpPrefix;
      url
  }

  /** A root-relative path and the same path without its leading '/' give
      the same address. */
  lemma AbsolutizeSlash(path: string)
    requires !StartsWith(path, HttpPrefix) && !StartsWith(path, "/")
    ensures Absolutize("/" + path) == Absolutize(path) == SiteOrigin + "/" + path
  {
    assert !StartsWith("/" + path, HttpPrefix) by {
      assert ("/" + path)[0] == '/';
    }
    assert StartsWith("/" + path, "/");
  }

  /** The elements `scrapeBasicInfo` reads. */
  datatype BasicElements = BasicElements(
    title: Option<Element>,
    image: Option<Element>,
    position: Option<Element>,
    height: Option<Element>,
    age: Option<Element>,
    nationality: Option<Element>)

  /** What `scrapeBasicInfo` returns; a field is set only when its element
      was found (the image only when its `src` is non-empty). */
  datatype BasicInfo = BasicInfo(
    name: Option<string>,
    imageUrl: Option<string>,
    position: Option<string>,
    height: Option<string>,
    age: Option<string>,
    nationality: Option<string>)

  /** A labelled info-box field. */
  function InfoField(e: Option<Element>): (r: Option<string>)
    ensures r.Some? <==> e.Some?
  {
    if e.Some? then Some(ExtractValueAfterColon(SafeGetText(e))) else None
  }

  /** The image address, when the image has a non-empty trimmed `src`. */
  function ImageUrl(image: Option<Element>): (r: Option<string>)
    ensures r.Some? ==> StartsWith(r.value, HttpPrefix)
  {
    var src := SafeGetAttr(image, "src");
    if src.Some? && src.value != "" then Some(Absolutize(src.value)) else None
  }

  function BasicInfoOf(page: BasicElements): BasicInfo {
    BasicInfo(
      if page.title.Some? then Some(CleanName(page.title)) else None,
      ImageUrl(page.image),
      InfoField(page.position),
      InfoField(page.height),
      InfoField(page.age),
      InfoField(page.nationality))
  }

  /** `scrapeBasicInfo`: fills the result field by field. */
  method ScrapeBasicInfo(page: BasicElements) returns (result: BasicInfo)
    ensures result == BasicInfoOf(page)
    ensures result.name.Some? <==> page.title.Some?
    ensures result.position.Some? <==> page.position.Some?
    ensures result.imageUrl.Some? ==> StartsWith(result.imageUrl.value, HttpPrefix)
  {
    result := BasicInfo(None, None, None, None, None, None);
    if page.title.Some? {
      var rawName := SafeGetText(page.title);
      result := result.(name := Some(Trim(ReplaceFirstIgnoreCase(rawName, ProfileSuffix))));
    }
    if page.image.Some? {
      var imageUrl := SafeGetAttr(page.image, "src");
      if imageUrl.Some? && imageUrl.value != "" {
        result := result.(imageUrl := Some(Absolutize(imageUrl.value)));
      }
    }
    if page.position.Some? {
      result := result.(position := Some(ExtractValueAfterColon(SafeGetText(page.position))));
    }
    if page.height.Some? {
      result := result.(height := Some(ExtractValueAfterColon(SafeGetText(page.height))));
    }
    if page.age.Some? {
      result := result.(age := Some(ExtractValueAfterColon(SafeGetText(page.age))));
    }
    if page.nationality.Some? {
      result := result.(nationality := Some(ExtractValueAfterColon(SafeGetText(page.nationality))));
    }
  }

  // ---------------------------------------------------------------------
  // Tables

  /** A career row: at least two cells, a non-empty year and team, and the
      league from cell 3 when there is one. */
  function CareerOf(cells: seq<string>, index: nat): Option<CareerEntry> {
    if |cells| >= 2 then
      var entry := CareerEntry(CellText(cells, 0), CellText(cells, 1),
                               if |cells| > 2 then CellText(cells, 2) else "");
      if entry.year != "" && entry.team != "" then Some(entry) else None
    else None
  }

  lemma CareerRow(cells: seq<string>, index: nat)
    ensures CareerOf(cells, index).Some? <==>
      |cells| >= 2 && CellText(cells, 0) != "" && CellText(cells, 1) != ""
    ensures CareerOf(cells, index).Some? ==>
      var e := CareerOf(cells, index).value;
      IsTrimmed(e.year) && IsTrimmed(e.team) && IsTrimmed(e.league) &&
      (|cells| == 2 ==> e.league == "")
  {
  }

  /** A game-log row: its cells and the link in its fourth cell. */
  datatype LogRow = LogRow(cells: seq<string>, resultLink: Option<Element>)

  /** A game-log row with at least 18 cells, mapped by position; the result
      and box-score address come from the link in cell 4. */
  function GameLogOf(row: LogRow, index: nat): Option<GameLog> {
    var c := row.cells;
    if |c| >= 18 then
      Some(GameLog(CellText(c, 0), CellText(c, 1), CellText(c, 2),
                   SafeGetText(row.resultLink), SafeGetAttr(row.resultLink, "href"),
                   CellText(c, 4), CellText(c, 5), CellText(c, 6), CellText(c, 7),
                   CellText(c, 8), CellText(c, 9), CellText(c, 10), CellText(c, 11),
                   CellText(c, 12), CellText(c, 13), CellText(c, 14), CellText(c, 15),
                   CellText(c, 16), CellText(c, 17)))
    else None
  }

  lemma GameLogRow(row: LogRow, index: nat)
    ensures GameLogOf(row, index).Some? <==> |row.cells| >= 18
    ensures GameLogOf(row, index).Some? ==>
      var g := GameLogOf(row, index).value;
      g.date == CellText(row.cells, 0) && g.rank == CellText(row.cells, 17) &&
      (g.boxScoreUrl.Some? <==> row.resultLink.Some? && "href" in row.resultLink.value.attributes &&
                                row.resultLink.value.attributes["href"] != "") &&
      (row.resultLink.None? ==> g.result == "" && g.boxScoreUrl.None?)
  {
  }

  /** A summary row with at least 16 cells, mapped by position. */
  function SummaryOf(cells: seq<string>, index: nat): Option<SummaryStats> {
    if |cells| >= 16 then
      Some(SummaryStats(CellText(cells, 0), CellText(cells, 1), CellText(cells, 2), CellText(cells, 3),
                        CellText(cells, 4), CellText(cells, 5), CellText(cells, 6), CellText(cells, 7),
                        CellText(cells, 8), CellText(cells, 9), CellText(cells, 10), CellText(cells, 11),
                        CellText(cells, 12), CellText(cells, 13), CellText(cells, 14), CellText(cells, 15)))
    else None
  }

  /** An averages row with at least 16 cells, mapped by position. */
  function AverageOf(cells: seq<string>, index: nat): Option<AverageStats> {
    if |cells| >= 16 then
      Some(AverageStats(CellText(cells, 0), CellText(cells, 1), CellText(cells, 2), CellText(cells, 3),
                        CellText(cells, 4), CellText(cells, 5), CellText(cells, 6), CellText(cells, 7),
                        CellText(cells, 8), CellText(cells, 9), CellText(cells, 10), CellText(cells, 11),
                        CellText(cells, 12), CellText(cells, 13), CellText(cells, 14), CellText(cells, 15)))
    else None
  }

  lemma StatsRows(cells: seq<string>, index: nat)
    ensures SummaryOf(cells, index).Some? <==> |cells| >= 16
    ensures AverageOf(cells, index).Some? <==> |cells| >= 16
    ensures SummaryOf(cells, index).Some? ==>
      SummaryOf(cells, index).value.team == AverageOf(cells, index).value.team == CellText(cells, 0)
  {
  }

  /** `scrapeCareerHistory`. */
  method ScrapeCareerHistory(rows: seq<seq<string>>) returns (careerHistory: Option<seq<CareerEntry>>)
    ensures careerHistory == NonEmpty(Kept(rows, CareerOf))
  {
    var career := CollectRows(rows, CareerOf);
    careerHistory := if |career| > 0 then Some(career) else None;
  }

  /** `scrapeGameLogs`. */
  method ScrapeGameLogs(rows: seq<LogRow>) returns (gameLogs: Option<seq<GameLog>>)
    ensures gameLogs == NonEmpty(Kept(rows, GameLogOf))
  {
    var logs := CollectRows(rows, GameLogOf);
    gameLogs := if |logs| > 0 then Some(logs) else None;
  }

  /** `scrapeSummaryAndAverageStats`. */
  method ScrapeSummaryAndAverageStats(summaryRows: seq<seq<string>>, averageRows: seq<seq<string>>)
    returns (summaryStats: Option<seq<SummaryStats>>, averageStats: Option<seq<AverageStats>>)
    ensures summaryStats == NonEmpty(Kept(summaryRows, SummaryOf))
    ensures averageStats == NonEmpty(Kept(averageRows, AverageOf))
  {
    var summary := CollectRows(summaryRows, SummaryOf);
    var average := CollectRows(averageRows, AverageOf);
    summaryStats := if |summary| > 0 then Some(summary) else None;
    averageStats := if |average| > 0 then Some(average) else None;
  }

  // ---------------------------------------------------------------------
  // Advanced statistics

  /** The advanced-stats table: absent, present without a data row, or its
      data row's cells. */
  datatype AdvancedTable = NoTable | NoDataRow | DataRow(cells: seq<string>)

  const AdvancedCells: nat := 24

  /** Cell `i` as a number, 0 when it is empty or unreadable. */
  function StatAt(cells: seq<string>, i: nat, parseFloat: string -> Option<real>): real {
    NumberOrZero(ParseNumberSafe(CellText(cells, i), parseFloat))
  }

  /** Cells `i`, `i+1`, `i+2` as value, team figure and percentage. */
  function TripleAt(cells: seq<string>, i: nat, parseFloat: string -> Option<real>): StatTriple {
    StatTriple(StatAt(cells, i, parseFloat), StatAt(cells, i + 1, parseFloat), StatAt(cells, i + 2, parseFloat))
  }

  /** The eight triples of a data row, triple `k` from cells `3k`, `3k+1`,
      `3k+2`: points, two-point shots made and attempted, three-point shots made
      and attempted, free throws made and attempted, assists. */
  function RowTriples(cells: seq<string>, parseFloat: string -> Option<real>): (ts: seq<StatTriple>)
    ensures |ts| == 8
  {
    seq(8, k requires 0 <= k < 8 => TripleAt(cells, 3 * k, parseFloat))
  }

  /** The eight triples placed under their keys. */
  function Assemble(ts: seq<StatTriple>): AdvancedStats
    requires |ts| == 8
  {
    AdvancedStats(ts[0], ShotSplit(ts[1], ts[2]), ShotSplit(ts[3], ts[4]), ShotSplit(ts[5], ts[6]), ts[7])
  }

  /** `scrapeAdvancedStats`. */
  function ScrapeAdvancedStats(table: AdvancedTable, parseFloat: string -> Option<real>): Option<AdvancedStats> {
    match table
    case DataRow(cells) =>
      if |cells| < AdvancedCells then None
      else Some(Assemble(RowTriples(cells, parseFloat)))
    case _ => None
  }

  /** The eight triples in key order. */
  function Triples(a: AdvancedStats): (ts: seq<StatTriple>)
    ensures |ts| == 8
  {
    [a.points, a.twoPointFG.made, a.twoPointFG.attempted, a.threePointFG.made,
     a.threePointFG.attempted, a.freeThrows.made, a.freeThrows.attempted, a.assists]
  }

  /** Reading the triples back in key order gives them in table order. */
  lemma TriplesAssemble(ts: seq<StatTriple>)
    requires |ts| == 8
    ensures Triples(Assemble(ts)) == ts
  {
  }

  /** Advanced stats are present exactly for a data row of at least 24
      cells. */
  lemma AdvancedPresence(table: AdvancedTable, parseFloat: string -> Option<real>)
    ensures ScrapeAdvancedStats(table, parseFloat).Some? <==> table.DataRow? && |table.cells| >= AdvancedCells
  {
  }

  /** For such a row, triple `k` is read from cells `3k`, `3k+1`, `3k+2`. */
  lemma AdvancedLayout(cells: seq<string>, parseFloat: string -> Option<real>, k: nat)
    requires |cells| >= AdvancedCells && k < 8
    ensures ScrapeAdvancedStats(DataRow(cells), parseFloat).Some?
    ensures Triples(ScrapeAdvancedStats(DataRow(cells), parseFloat).value)[k] == TripleAt(cells, 3 * k, parseFloat)
  {
    TriplesAssemble(RowTriples(cells, parseFloat));
  }

  /** An empty or unreadable cell counts as 0; a readable one as its value. */
  lemma UnreadableIsZero(cells: seq<string>, i: nat, parseFloat: string -> Option<real>)
    ensures CellText(cells, i) == "" ==> StatAt(cells, i, parseFloat) == 0.0
    ensures CellText(cells, i) != "" && parseFloat(CellText(cells, i)).None? ==> StatAt(cells, i, parseFloat) == 0.0
    ensures CellText(cells, i) != "" && parseFloat(CellText(cells, i)).Some? ==>
      StatAt(cells, i, parseFloat) == parseFloat(CellText(cells, i)).value
  {
  }

  // ---------------------------------------------------------------------
  // The whole page

  /** A parsed detail page, as the selectors see it. */
  datatype DetailPage = DetailPage(
    basic: BasicElements,
    careerRows: seq<seq<string>>,
    gameLogRows: seq<LogRow>,
    summaryRows: seq<seq<string>>,
    averageRows: seq<seq<string>>,
    advanced: AdvancedTable)

  /** `scrapePlayerDetails`: the given identifier and every section's
      result, each under its own keys. */
  function ScrapePlayerDetails(page: DetailPage, playerId: string, parseFloat: string -> Option<real>): PlayerDetails {
    var basic := BasicInfoOf(page.basic);
    PlayerDetails(
      playerId,
      basic.name, basic.position, basic.height, basic.age, basic.nationality, basic.imageUrl,
      NonEmpty(Kept(page.careerRows, CareerOf)),
      NonEmpty(Kept(page.gameLogRows, GameLogOf)),
      NonEmpty(Kept(page.summaryRows, SummaryOf)),
      NonEmpty(Kept(page.averageRows, AverageOf)),
      ScrapeAdvancedStats(page.advanced, parseFloat))
  }

  /** The identifier is always the one asked for, and each list section is
      either absent or non-empty: present exactly when one of its rows was
      accepted. */
  lemma {:induction false} DetailsSections(page: DetailPage, playerId: string, parseFloat: string -> Option<real>)
    ensures var d := ScrapePlayerDetails(page, playerId, parseFloat);
      d.id == playerId &&
      (d.careerHistory.Some? ==> d.careerHistory.value != []) &&
      (d.gameLogs.Some? ==> d.gameLogs.value != []) &&
      (d.summaryStats.Some? ==> d.summaryStats.value != []) &&
      (d.averageStats.Some? ==> d.averageStats.value != [])
    ensures var d := ScrapePlayerDetails(page, playerId, parseFloat);
      (d.careerHistory.Some? <==> exists i :: 0 <= i < |page.careerRows| && CareerOf(page.careerRows[i], i).Some?) &&
      (d.gameLogs.Some? <==> exists i :: 0 <= i < |page.gameLogRows| && |page.gameLogRows[i].cells| >= 18) &&
      (d.summaryStats.Some? <==> exists i :: 0 <= i < |page.summaryRows| && |page.summaryRows[i]| >= 16) &&
      (d.averageStats.Some? <==> exists i :: 0 <= i < |page.averageRows| && |page.averageRows[i]| >= 16)
  {
    KeptEmpty(page.careerRows, CareerOf);
    KeptEmpty(page.gameLogRows, GameLogOf);
    KeptEmpty(page.summaryRows, SummaryOf);
    KeptEmpty(page.averageRows, AverageOf);
  }

  /** The image address, when set, is absolute. */
  lemma DetailsImageAbsolute(page: DetailPage, playerId: string, parseFloat: string -> Option<real>)
    ensures var d := ScrapePlayerDetails(page, playerId, parseFloat);
      d.imageUrl.Some? ==> StartsWith(d.imageUrl.value, HttpPrefix)
  {
  }
}
