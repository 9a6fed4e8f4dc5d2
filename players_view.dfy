/** The roster list page: search and filters over the loaded players, the
    dropdown choices, the page of fifteen shown, and the strip of page
    buttons. */
module PlayersView {
  import opened Wrappers
  import opened Maths
  import opened Text
  import opened Types

  const PlayersPerPage: nat := 15

  /** Marker for an ellipsis in the page-button strip. */
  const Ellipsis: int := -1

  /** The strip never has more than this many slots. */
  const WindowSlots: nat := 7

  // ---------------------------------------------------------------------
  // Filtering

  /** The search box and the three dropdown filters; "" means "any". */
  datatype Criteria = Criteria(search: string, position: string, team: string, nationality: string)

  const NoCriteria := Criteria("", "", "", "")

  /** A player passes when the search is empty or the lower-cased name
      contains the lower-cased search, and every chosen filter equals the
      player's own field. */
  predicate Matches(p: Player, c: Criteria) {
    (c.search == "" || (p.name != "" && Contains(LowerAscii(p.name), LowerAscii(c.search))))
    && (c.position == "" || p.position == c.position)
    && (c.team == "" || p.team == c.team)
    && (c.nationality == "" || p.nationality == c.nationality)
  }

  /** `players.filter(...)`. */
  function FilterPlayers(ps: seq<Player>, c: Criteria): (r: seq<Player>)
    ensures |r| <= |ps|
  {
    if ps == [] then []
    else (if Matches(ps[0], c) then [ps[0]] else []) + FilterPlayers(ps[1..], c)
  }

  /** A player is listed exactly when it is loaded and passes. */
  lemma {:induction false} FilterMembers(ps: seq<Player>, c: Criteria, p: Player)
    ensures p in FilterPlayers(ps, c) <==> p in ps && Matches(p, c)
  {
    if ps != [] {
      FilterMembers(ps[1..], c, p);
      assert ps == [ps[0]] + ps[1..];
    }
  }

  /** Filtering a concatenation filters each part in place, so survivors
      keep their original order. */
  lemma {:induction false} FilterAppend(a: seq<Player>, b: seq<Player>, c: Criteria)
    ensures FilterPlayers(a + b, c) == FilterPlayers(a, c) + FilterPlayers(b, c)
  {
    if a == [] {
      assert a + b == b;
    } else {
      assert (a + b)[1..] == a[1..] + b;
      FilterAppend(a[1..], b, c);
    }
  }

  /** Nothing is dropped exactly when every player passes. */
  lemma {:induction false} FilterKeepsAll(ps: seq<Player>, c: Criteria)
    ensures FilterPlayers(ps, c) == ps <==> forall i :: 0 <= i < |ps| ==> Matches(ps[i], c)
  {
    if ps != [] {
      FilterKeepsAll(ps[1..], c);
      if !Matches(ps[0], c) {
        assert |FilterPlayers(ps, c)| < |ps| by {
          assert |FilterPlayers(ps[1..], c)| <= |ps[1..]|;
        }
      } else if FilterPlayers(ps, c) == ps {
        assert FilterPlayers(ps[1..], c) == ps[1..] by {
          assert FilterPlayers(ps, c)[1..] == FilterPlayers(ps[1..], c);
        }
      }
    }
  }

  /** With no search and no filter, the whole list is shown. */
  lemma NoCriteriaShowsAll(ps: seq<Player>)
    ensures FilterPlayers(ps, NoCriteria) == ps
  {
    FilterKeepsAll(ps, NoCriteria);
  }

  /** Filtering twice with the same criteria changes nothing more. */
  lemma FilterIdempotent(ps: seq<Player>, c: Criteria)
    ensures FilterPlayers(FilterPlayers(ps, c), c) == FilterPlayers(ps, c)
  {
    var f := FilterPlayers(ps, c);
    forall i | 0 <= i < |f| ensures Matches(f[i], c) {
      FilterMembers(ps, c, f[i]);
    }
    FilterKeepsAll(f, c);
  }

  // ---------------------------------------------------------------------
  // Dropdown choices

  /** Every entry is before every later one in string order: sorted, with
      no repeats. */
  predicate StrictlySorted(s: seq<string>) {
    forall i, j :: 0 <= i < j < |s| ==> Less(s[i], s[j])
  }

  /** Adds `x` to a sorted list of distinct strings, unless it is there. */
  function Insert(x: string, s: seq<string>): (r: seq<string>)
    ensures |r| <= |s| + 1
  {
    if s == [] then [x]
    else if x == s[0] then s
    else if Less(x, s[0]) then [x] + s
    else [s[0]] + Insert(x, s[1..])
  }

  lemma {:induction false} InsertSorted(x: string, s: seq<string>)
    requires StrictlySorted(s)
    ensures StrictlySorted(Insert(x, s))
    ensures forall y :: y in Insert(x, s) <==> y == x || y in s
  {
    if s == [] {
    } else if x == s[0] {
    } else if Less(x, s[0]) {
      var r := [x] + s;
      forall i, j | 0 <= i < j < |r| ensures Less(r[i], r[j]) {
        if i == 0 && j > 1 {
          LessTransitive(x, s[0], s[j - 1]);
        }
      }
    } else {
      InsertSorted(x, s[1..]);
      LessTotal(x, s[0]);
      var t := Insert(x, s[1..]);
      var r := [s[0]] + t;
      forall k | 0 <= k < |t| ensures Less(s[0], t[k]) {
        assert t[k] in t;
        if t[k] != x {
          var m :| 0 <= m < |s[1..]| && s[1..][m] == t[k];
          assert s[m + 1] == t[k];
        }
      }
      forall i, j | 0 <= i < j < |r| ensures Less(r[i], r[j]) {
        if i > 0 {
          assert r[i] == t[i - 1] && r[j] == t[j - 1];
        }
      }
      assert s == [s[0]] + s[1..];
    }
  }

  /** `Array.from(new Set(values.filter(Boolean))).sort()`: the distinct
      non-empty values, in string order. */
  function DistinctSorted(values: seq<string>): (r: seq<string>)
    ensures |r| <= |values|
    decreases |values|
  {
    if values == [] then []
    else
      var v := values[|values| - 1];
      var rest := DistinctSorted(values[..|values| - 1]);
      if v == "" then rest else Insert(v, rest)
  }

  lemma {:induction false} DistinctSortedSpec(values: seq<string>)
    ensures StrictlySorted(DistinctSorted(values))
    ensures forall y :: y in DistinctSorted(values) <==> y != "" && y in values
    decreases |values|
  {
    if values != [] {
      var n := |values| - 1;
      DistinctSortedSpec(values[..n]);
      if values[n] != "" {
        InsertSorted(values[n], DistinctSorted(values[..n]));
      }
      assert values == values[..n] + [values[n]];
    }
  }

  /** Two sorted lists without repeats that hold the same strings are the
      same list; so the dropdown does not depend on how it was built. */
  lemma {:induction false} SortedUnique(a: seq<string>, b: seq<string>)
    requires StrictlySorted(a) && StrictlySorted(b)
    requires forall y :: y in a <==> y in b
    ensures a == b
    decreases |a|
  {
    if a != [] && b != [] {
      if a[0] != b[0] {
        SortedHeadIsLeast(b, a[0]);
        SortedHeadIsLeast(a, b[0]);
        LessTransitive(a[0], b[0], a[0]);
        LessIrreflexive(a[0]);
        assert false;
      }
      forall y ensures y in a[1..] <==> y in b[1..] {
        if y in a[1..] {
          var k :| 0 <= k < |a[1..]| && a[1..][k] == y;
          LessIrreflexive(a[0]);
          assert y != a[0] by { assert Less(a[0], a[k + 1]); }
          assert y in b;
          assert b == [b[0]] + b[1..];
        }
        if y in b[1..] {
          var k :| 0 <= k < |b[1..]| && b[1..][k] == y;
          LessIrreflexive(b[0]);
          assert y != b[0] by { assert Less(b[0], b[k + 1]); }
          assert y in a;
          assert a == [a[0]] + a[1..];
        }
      }
      SortedUnique(a[1..], b[1..]);
      assert a == [a[0]] + a[1..] && b == [b[0]] + b[1..];
    } else if a != [] {
      HeadIsMember(a);
      assert false;
    } else if b != [] {
      HeadIsMember(b);
      assert false;
    }
  }

  lemma HeadIsMember(s: seq<string>)
    requires s != []
    ensures s[0] in s
  {
  }

  /** In a sorted list without repeats, the head is before every other
      member. */
  lemma SortedHeadIsLeast(s: seq<string>, y: string)
    requires StrictlySorted(s) && y in s && y != s[0]
    ensures Less(s[0], y)
  {
    var k :| 0 <= k < |s| && s[k] == y;
  }

  /** One field of every loaded player, in list order. */
  function FieldValues(ps: seq<Player>, field: Player -> string): (vs: seq<string>)
    ensures |vs| == |ps|
  {
    seq(|ps|, i requires 0 <= i < |ps| => field(ps[i]))
  }

  /** A dropdown: "" (for "any") followed by the distinct non-empty values
      of the field in string order. */
  function Dropdown(ps: seq<Player>, field: Player -> string): (r: seq<string>)
    ensures r != [] && r[0] == ""
  {
    [""] + DistinctSorted(FieldValues(ps, field))
  }

  /** `uniquePositions`. */
  function UniquePositions(ps: seq<Player>): seq<string> {
    Dropdown(ps, (p: Player) => p.position)
  }

  /** `uniqueTeams`. */
  function UniqueTeams(ps: seq<Player>): seq<string> {
    Dropdown(ps, (p: Player) => p.team)
  }

  /** `uniqueNationalities`. */
  function UniqueNationalities(ps: seq<Player>): seq<string> {
    Dropdown(ps, (p: Player) => p.nationality)
  }

  /** After the leading "" come exactly the non-empty values some player
      has, each once, in string order; and the whole list is in order. */
  lemma DropdownSpec(ps: seq<Player>, field: Player -> string)
    ensures StrictlySorted(Dropdown(ps, field))
    ensures forall v :: v in Dropdown(ps, field)[1..] <==>
      v != "" && exists i :: 0 <= i < |ps| && field(ps[i]) == v
  {
    var vs := FieldValues(ps, field);
    DistinctSortedSpec(vs);
    var r := Dropdown(ps, field);
    assert r[1..] == DistinctSorted(vs);
    forall v ensures v in vs <==> exists i :: 0 <= i < |ps| && field(ps[i]) == v {
      if v in vs {
        var i :| 0 <= i < |vs| && vs[i] == v;
      }
      if exists i :: 0 <= i < |ps| && field(ps[i]) == v {
        var i :| 0 <= i < |ps| && field(ps[i]) == v;
        assert vs[i] == v;
      }
    }
    forall i, j | 0 <= i < j < |r| ensures Less(r[i], r[j]) {
      if i == 0 {
        assert r[j] in DistinctSorted(vs);
      } else {
        assert r[i] == r[1..][i - 1] && r[j] == r[1..][j - 1];
      }
    }
  }

  // ---------------------------------------------------------------------
  // Pages

  /** An `Array.prototype.slice` index: negative counts from the end, and
      both ends are clamped to the list. */
  function SliceIndex(i: int, n: nat): (k: nat)
    ensures k <= n
  {
    if i < 0 then Max(n + i, 0) else Min(i, n)
  }

  /** `s.slice(start, end)`. */
  function Slice<T>(s: seq<T>, start: int, end: int): seq<T> {
    var a := SliceIndex(start, |s|);
    var b := SliceIndex(end, |s|);
    if a < b then s[a..b] else []
  }

  /** `filteredPlayers.slice(indexOfFirstPlayer, indexOfLastPlayer)`. */
  function CurrentPlayers(filtered: seq<Player>, page: int): seq<Player> {
    var last := page * PlayersPerPage;
    Slice(filtered, last - PlayersPerPage, last)
  }

  /** From page 1 on, page `p` shows the players at positions
      `(p-1)*15 .. p*15` that exist, so at most fifteen. */
  lemma PageSlice(filtered: seq<Player>, page: int)
    requires page >= 1
    ensures var n := |filtered|;
      CurrentPlayers(filtered, page) ==
        filtered[Min((page - 1) * PlayersPerPage, n)..Min(page * PlayersPerPage, n)]
    ensures |CurrentPlayers(filtered, page)| <= PlayersPerPage
  {
  }

  /** Pages `1..k` one after the other. */
  function PagesUpTo(filtered: seq<Player>, k: nat): seq<Player> {
    if k == 0 then [] else PagesUpTo(filtered, k - 1) + CurrentPlayers(filtered, k)
  }

  /** The first `k` pages hold the first `15k` players, in order; so the
      `totalPages` pages together show every filtered player exactly once. */
  lemma {:induction false} PagesCover(filtered: seq<Player>, k: nat)
    ensures PagesUpTo(filtered, k) == filtered[..Min(k * PlayersPerPage, |filtered|)]
  {
    if k > 0 {
      PagesCover(filtered, k - 1);
      PageSlice(filtered, k);
      var n := |filtered|;
      var a := Min((k - 1) * PlayersPerPage, n);
      var b := Min(k * PlayersPerPage, n);
      assert filtered[..a] + filtered[a..b] == filtered[..b];
    }
  }

  lemma AllPagesShowAll(filtered: seq<Player>)
    ensures PagesUpTo(filtered, CeilDiv(|filtered|, PlayersPerPage)) == filtered
  {
    PagesCover(filtered, CeilDiv(|filtered|, PlayersPerPage));
    assert filtered[..|filtered|] == filtered;
  }

  /** "Showing A to B of N players". */
  datatype Footer = Footer(first: int, last: int, total: nat)

  function FooterOf(filtered: seq<Player>, page: int): Footer {
    var last := page * PlayersPerPage;
    Footer(last - PlayersPerPage + 1, Min(last, |filtered|), |filtered|)
  }

  /** On a page that shows someone, A and B are the one-based positions of
      its first and last player. */
  lemma FooterCountsShown(filtered: seq<Player>, page: int)
    requires page >= 1 && (page - 1) * PlayersPerPage < |filtered|
    ensures var f := FooterOf(filtered, page);
      1 <= f.first <= f.last <= f.total &&
      CurrentPlayers(filtered, page) == filtered[f.first - 1..f.last]
  {
    PageSlice(filtered, page);
  }

  // ---------------------------------------------------------------------
  // The page-button strip

  /** The page shown in slot `idx` of the strip, or `Ellipsis`. */
  function PageNumber(totalPages: nat, current: int, idx: nat): int {
    if totalPages <= WindowSlots then idx + 1
    else if current <= 3 then
      if idx < 5 then idx + 1 else if idx == 5 then Ellipsis else totalPages
    else if current >= totalPages - 2 then
      if idx == 0 then 1 else if idx == 1 then Ellipsis else totalPages - (6 - idx)
    else
      if idx == 0 then 1
      else if idx == 1 then Ellipsis
      else if idx == 5 then Ellipsis
      else if idx == 6 then totalPages
      else current + (idx - 3)
  }

  /** `[...Array(Math.min(totalPages, 7))].map(...)`. */
  function PageWindow(totalPages: nat, current: int): (w: seq<int>)
    ensures |w| == Min(totalPages, WindowSlots)
  {
    seq(Min(totalPages, WindowSlots), idx requires 0 <= idx => PageNumber(totalPages, current, idx))
  }

  /** Up to seven pages: every page, in order. */
  lemma WindowShowsAllFewPages(totalPages: nat, current: int)
    requires totalPages <= WindowSlots
    ensures forall i :: 0 <= i < |PageWindow(totalPages, current)| ==> PageWindow(totalPages, current)[i] == i + 1
  {
  }

  /** More than seven pages: seven slots from page 1 to the last page; every
      slot is an ellipsis or a real page. */
  lemma WindowEnds(totalPages: nat, current: int)
    requires totalPages > WindowSlots
    ensures var w := PageWindow(totalPages, current);
      |w| == 7 && w[0] == 1 && w[6] == totalPages
  {
  }

  lemma WindowEntries(totalPages: nat, current: int, i: nat)
    requires i < |PageWindow(totalPages, current)|
    ensures var v := PageWindow(totalPages, current)[i];
      v == Ellipsis || 1 <= v <= totalPages
  {
  }

  /** Real pages appear in increasing order; two neighbouring real pages are
      consecutive page numbers, and an ellipsis stands between two real
      pages with at least one page skipped. */
  lemma WindowOrder(totalPages: nat, current: int, i: nat, j: nat)
    requires i < j < |PageWindow(totalPages, current)|
    ensures var w := PageWindow(totalPages, current);
      w[i] != Ellipsis && w[j] != Ellipsis ==> w[i] < w[j]
  {
  }

  lemma WindowGaps(totalPages: nat, current: int, i: nat)
    requires i + 1 < |PageWindow(totalPages, current)|
    ensures var w := PageWindow(totalPages, current);
      (w[i] != Ellipsis && w[i + 1] != Ellipsis ==> w[i + 1] == w[i] + 1) &&
      (w[i] == Ellipsis ==> 0 < i && w[i - 1] != Ellipsis && w[i + 1] != Ellipsis && w[i - 1] + 1 < w[i + 1])
  {
  }

  /** The current page, when it is a real page, always has a button. */
  lemma WindowHasCurrent(totalPages: nat, current: int)
    requires 1 <= current <= totalPages
    ensures current in PageWindow(totalPages, current)
  {
    var w := PageWindow(totalPages, current);
    if totalPages <= WindowSlots {
      assert w[current - 1] == current;
    } else if current <= 3 {
      assert w[current - 1] == current;
    } else if current >= totalPages - 2 {
      assert w[6 - (totalPages - current)] == current;
    } else {
      assert w[3] == current;
    }
  }

  // ---------------------------------------------------------------------
  // The page's state

  /** The loaded players, the criteria, and the current page number. */
  class PlayersPage {
    var players: seq<Player>
    var criteria: Criteria
    var currentPage: int

    /** Before loading: no players, no criteria, page 1. */
    constructor()
      ensures players == [] && criteria == NoCriteria && currentPage == 1
    {
      players := [];
      criteria := NoCriteria;
      currentPage := 1;
    }

    function Filtered(): seq<Player>
      reads this
    {
      FilterPlayers(players, criteria)
    }

    /** `totalPages`: `Math.ceil(filteredPlayers.length / playersPerPage)`. */
    function Pages(): nat
      reads this
    {
      CeilDiv(|Filtered()|, PlayersPerPage)
    }

    /** The current page is a real page, or page 1 when there is none. */
    predicate InRange()
      reads this
    {
      1 <= currentPage <= Max(1, Pages())
    }

    /** The roster request answers: the list becomes the reply's players, or
        empty while there is no reply, and nothing else changes. */
    method Load(reply: Option<seq<Player>>)
      modifies this
      ensures players == (if reply.Some? then reply.value else [])
      ensures criteria == old(criteria) && currentPage == old(currentPage)
    {
      players := reply.GetOr([]);
    }

    /** Sets the criteria; a change of any of them brings back page 1. */
    method SetCriteria(c: Criteria)
      modifies this
      ensures players == old(players) && criteria == c
      ensures currentPage == (if c == old(criteria) then old(currentPage) else 1)
      ensures old(InRange()) ==> InRange()
    {
      if c != criteria {
        criteria := c;
        currentPage := 1;
      }
    }

    method SetSearchTerm(t: string)
      modifies this
      ensures players == old(players) && criteria == old(criteria).(search := t)
      ensures currentPage == (if t == old(criteria).search then old(currentPage) else 1)
      ensures old(InRange()) ==> InRange()
    {
      SetCriteria(criteria.(search := t));
    }

    method SetFilterPosition(v: string)
      modifies this
      ensures players == old(players) && criteria == old(criteria).(position := v)
      ensures currentPage == (if v == old(criteria).position then old(currentPage) else 1)
      ensures old(InRange()) ==> InRange()
    {
      SetCriteria(criteria.(position := v));
    }

    method SetFilterTeam(v: string)
      modifies this
      ensures players == old(players) && criteria == old(criteria).(team := v)
      ensures currentPage == (if v == old(criteria).team then old(currentPage) else 1)
      ensures old(InRange()) ==> InRange()
    {
      SetCriteria(criteria.(team := v));
    }

    method SetFilterNationality(v: string)
      modifies this
      ensures players == old(players) && criteria == old(criteria).(nationality := v)
      ensures currentPage == (if v == old(criteria).nationality then old(currentPage) else 1)
      ensures old(InRange()) ==> InRange()
    {
      SetCriteria(criteria.(nationality := v));
    }

    /** `goToPreviousPage`: back one page unless on page 1. */
    method GoToPreviousPage()
      modifies this
      ensures players == old(players) && criteria == old(criteria)
      ensures currentPage == (if old(currentPage) > 1 then old(currentPage) - 1 else old(currentPage))
      ensures old(InRange()) ==> InRange()
    {
      if currentPage > 1 {
        currentPage := currentPage - 1;
      }
    }

    /** `goToNextPage`: on one page unless on the last. */
    method GoToNextPage()
      modifies this
      ensures players == old(players) && criteria == old(criteria)
      ensures currentPage == (if old(currentPage) < old(Pages()) then old(currentPage) + 1 else old(currentPage))
      ensures old(InRange()) ==> InRange()
    {
      if currentPage < Pages() {
        currentPage := currentPage + 1;
      }
    }

    /** `paginate`: a page button was pressed. */
    method Paginate(pageNumber: int)
      modifies this
      ensures players == old(players) && criteria == old(criteria) && currentPage == pageNumber
    {
      currentPage := pageNumber;
    }

    /** The page of players on screen. */
    function Shown(): seq<Player>
      reads this
    {
      CurrentPlayers(Filtered(), currentPage)
    }

    /** The buttons on screen. */
    function Buttons(): seq<int>
      reads this
    {
      PageWindow(Pages(), currentPage)
    }
  }

  /** Pressing any page button keeps the current page a real page. */
  lemma ButtonKeepsInRange(totalPages: nat, current: int, i: nat)
    requires i < |PageWindow(totalPages, current)| && PageWindow(totalPages, current)[i] != Ellipsis
    ensures 1 <= PageWindow(totalPages, current)[i] <= Max(1, totalPages)
  {
    WindowEntries(totalPages, current, i);
  }
}
