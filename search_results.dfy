/** The result renderer: the count line, one view per result record, and the pagination
    bar (Previous, the numbered page entries with ellipses, Next). Everything here is a
    function of the search response and the measured query time. */
module SearchResults {
  import opened Wrappers
  import opened Text
  import opened Records

  // ---------------------------------------------------------------------------------
  // The count line: "Found N result" or "Found N results", then " . T ms" when a query
  // time is known.

  function CountLine(total: nat, queryTime: Option<nat>): string {
    "Found " + Decimal(total) + Plural(total) + TimePart(queryTime)
  }

  function TimePart(queryTime: Option<nat>): string {
    if queryTime.Some? then " . " + Decimal(queryTime.value) + " ms" else ""
  }

  /** Length of the longest prefix made of decimal digits. */
  function DigitsLen(s: string): (n: nat)
    ensures n <= |s|
    ensures n < |s| ==> !IsDigit(s[n])
    ensures forall k :: 0 <= k < n ==> IsDigit(s[k])
  {
    if s != [] && IsDigit(s[0]) then 1 + DigitsLen(s[1..]) else 0
  }

  /** Reads a number at the start of `s`: its value and the text after it. */
  function ReadNumber(s: string): Option<(nat, string)> {
    var n := DigitsLen(s);
    if n == 0 then None else Some((DecimalValue(s[..n]), s[n..]))
  }

  /** Reads a count line back: the total, and the query time if one is shown. A line
      whose plural "s" does not agree with its total is not a count line. */
  function ReadCountLine(line: string): Option<(nat, Option<nat>)> {
    if |line| < 6 || line[..6] != "Found " then None
    else
      var number := ReadNumber(line[6..]);
      if number.None? then None
      else
        var time := ReadAfterTotal(number.value.0, number.value.1);
        if time.None? then None else Some((number.value.0, time.value))
  }

  function Plural(total: nat): string {
    if total != 1 then " results" else " result"
  }

  /** After the total: " result" or " results" as the total demands, then the time. */
  function ReadAfterTotal(total: nat, rest: string): Option<Option<nat>> {
    var suffix := Plural(total);
    if |rest| < |suffix| || rest[..|suffix|] != suffix then None
    else ReadTimePart(rest[|suffix|..])
  }

  /** Nothing, or " . T ms". */
  function ReadTimePart(tail: string): Option<Option<nat>> {
    if tail == [] then Some(None)
    else if |tail| < 3 || tail[..3] != " . " then None
    else
      var time := ReadNumber(tail[3..]);
      if time.Some? && time.value.1 == " ms" then Some(Some(time.value.0)) else None
  }

  lemma ReadDecimal(n: nat, rest: string)
    requires rest == [] || !IsDigit(rest[0])
    ensures ReadNumber(Decimal(n) + rest) == Some((n, rest))
  {
    var d := Decimal(n);
    DecimalRoundTrip(n);
    var s := d + rest;
    var k := DigitsLen(s);
    assert forall j :: 0 <= j < |d| ==> s[j] == d[j];
    assert rest != [] ==> s[|d|] == rest[0];
    assert k == |d|;
    assert s[..k] == d && s[k..] == rest;
  }

  /** The count line shows exactly the total and the query time: reading it back gives
      both, so "result" carries the plural "s" exactly when the total is not 1. */
  lemma CountLineRoundTrip(total: nat, queryTime: Option<nat>)
    ensures ReadCountLine(CountLine(total, queryTime)) == Some((total, queryTime))
  {
    var after := Plural(total) + TimePart(queryTime);
    assert CountLine(total, queryTime) == "Found " + (Decimal(total) + after);
    AfterTotalRoundTrip(total, queryTime);
    ReadFound(total, after);
  }

  lemma ReadFound(total: nat, after: string)
    requires after == [] || !IsDigit(after[0])
    ensures ReadCountLine("Found " + (Decimal(total) + after))
      == if ReadAfterTotal(total, after).None? then None else Some((total, ReadAfterTotal(total, after).value))
  {
    var line := "Found " + (Decimal(total) + after);
    assert line[..6] == "Found ";
    assert line[6..] == Decimal(total) + after;
    ReadDecimal(total, after);
  }

  lemma AfterTotalRoundTrip(total: nat, queryTime: Option<nat>)
    ensures var after := Plural(total) + TimePart(queryTime);
      && after != [] && !IsDigit(after[0])
      && ReadAfterTotal(total, after) == Some(queryTime)
  {
    var after := Plural(total) + TimePart(queryTime);
    assert after[..|Plural(total)|] == Plural(total);
    assert after[|Plural(total)|..] == TimePart(queryTime);
    TimePartRoundTrip(queryTime);
  }

  lemma TimePartRoundTrip(queryTime: Option<nat>)
    ensures ReadTimePart(TimePart(queryTime)) == Some(queryTime)
  {
    if queryTime.Some? {
      var t := queryTime.value;
      var timePart := TimePart(queryTime);
      assert timePart[..3] == " . ";
      assert timePart[3..] == Decimal(t) + " ms";
      ReadDecimal(t, " ms");
    }
  }

  // ---------------------------------------------------------------------------------
  // Result records: one view per record, in the order of the response. The timestamp is
  // shown as delivered (its locale formatting is not part of this model).

  datatype ItemView = ItemView(key: string, userName: string, timestamp: string, message: string)

  function RenderItems(items: seq<Message>): (views: seq<ItemView>)
    ensures |views| == |items|
    ensures forall i :: 0 <= i < |items| ==>
      views[i] == ItemView(items[i].id, items[i].userName, items[i].timestamp, items[i].text.GetOr(""))
  {
    seq(|items|, i requires 0 <= i < |items| =>
      ItemView(items[i].id, items[i].userName, items[i].timestamp, items[i].text.GetOr("")))
  }

  // ---------------------------------------------------------------------------------
  // The numbered page list: page 1, the last page, and the pages next to the current one.

  predicate Shown(p: int, current: int, totalPages: int) {
    p == 1 || p == totalPages || (p >= current - 1 && p <= current + 1)
  }

  /** The shown pages among lo, lo + 1, ..., totalPages, in ascending order. */
  function ShownFrom(lo: int, current: int, totalPages: int): seq<int>
    decreases totalPages + 1 - lo
  {
    if lo > totalPages then []
    else (if Shown(lo, current, totalPages) then [lo] else []) + ShownFrom(lo + 1, current, totalPages)
  }

  /** `Array.from({length: total_pages}, (_, i) => i + 1).filter(...)`. */
  function PageList(current: int, totalPages: int): seq<int> {
    ShownFrom(1, current, totalPages)
  }

  predicate Between(lo: int, p: int, hi: int) {
    lo < p < hi
  }

  ghost predicate StrictlyIncreasing(s: seq<int>) {
    forall i, j :: 0 <= i < j < |s| ==> s[i] < s[j]
  }

  lemma {:induction false} ShownFromSpec(lo: int, current: int, totalPages: int)
    decreases totalPages + 1 - lo
    ensures forall p :: p in ShownFrom(lo, current, totalPages) <==>
      lo <= p <= totalPages && Shown(p, current, totalPages)
    ensures StrictlyIncreasing(ShownFrom(lo, current, totalPages))
  {
    if lo <= totalPages {
      ShownFromSpec(lo + 1, current, totalPages);
      var rest := ShownFrom(lo + 1, current, totalPages);
      forall j | 0 <= j < |rest| ensures rest[j] > lo {
        assert rest[j] in rest;
      }
    }
  }

  /** The page list holds exactly the shown pages of 1..totalPages, strictly ascending;
      when there is a page at all it starts with page 1 and ends with the last page. */
  lemma PageListSpec(current: int, totalPages: int)
    ensures var pages := PageList(current, totalPages);
      && (forall p :: p in pages <==> 1 <= p <= totalPages && Shown(p, current, totalPages))
      && StrictlyIncreasing(pages)
      && (totalPages >= 1 ==> |pages| >= 1 && pages[0] == 1 && pages[|pages| - 1] == totalPages)
  {
    var pages := PageList(current, totalPages);
    ShownFromSpec(1, current, totalPages);
    if totalPages >= 1 {
      assert 1 in pages;
      assert totalPages in pages;
      var i :| 0 <= i < |pages| && pages[i] == 1;
      var j :| 0 <= j < |pages| && pages[j] == totalPages;
      assert pages[0] in pages;
      assert pages[|pages| - 1] in pages;
    }
  }

  /** At most five numbered entries: page 1, the last page and the three around the
      current page. */
  lemma PageListAtMostFive(current: int, totalPages: int)
    ensures |PageList(current, totalPages)| <= 5
  {
    var pages := PageList(current, totalPages);
    var n := |pages|;
    PageListSpec(current, totalPages);
    if n >= 3 {
      // the second and the last-but-one entries are neither page 1 nor the last page,
      // so both are within one of the current page, and the entries between them are
      // distinct
      assert pages[0] in pages && pages[1] in pages && pages[n - 2] in pages && pages[n - 1] in pages;
      assert Shown(pages[1], current, totalPages) && Shown(pages[n - 2], current, totalPages);
      Spread(pages[1..n - 1]);
    }
  }

  /** A strictly ascending list of integers spans at least its length minus one. */
  lemma {:induction false} Spread(s: seq<int>)
    requires StrictlyIncreasing(s) && |s| >= 1
    ensures s[|s| - 1] - s[0] >= |s| - 1
  {
    if |s| > 1 {
      Spread(s[..|s| - 1]);
    }
  }

  // ---------------------------------------------------------------------------------
  // The pagination bar.

  /** A numbered entry: its page, whether an ellipsis is shown before it, and whether it
      is highlighted as the current page. */
  datatype PageEntry = PageEntry(number: int, ellipsisBefore: bool, highlighted: bool)

  /** Previous or Next: the page it requests and whether it is disabled. */
  datatype NavButton = NavButton(target: int, disabled: bool)

  datatype PaginationBar = PaginationBar(previous: NavButton, entries: seq<PageEntry>, next: NavButton)

  function Entries(pages: seq<int>, current: int): seq<PageEntry> {
    seq(|pages|, i requires 0 <= i < |pages| =>
      PageEntry(pages[i], i > 0 && pages[i - 1] < pages[i] - 1, pages[i] == current))
  }

  function Bar(current: int, totalPages: int): PaginationBar {
    PaginationBar(
      NavButton(current - 1, current == 1),
      Entries(PageList(current, totalPages), current),
      NavButton(current + 1, current == totalPages))
  }

  /** The bar is rendered only when the response has a page count above 1 (a missing
      count compares false in JavaScript). */
  function Pagination(response: SearchPage): (bar: Option<PaginationBar>)
    ensures bar.Some? <==> response.totalPages.Some? && response.totalPages.value > 1
  {
    match response.totalPages
    case Some(n) => if n > 1 then Some(Bar(response.page, n)) else None
    case None => None
  }

  /** What the user can click on the bar. */
  datatype Click = ClickPrevious | ClickEntry(index: nat) | ClickNext

  /** The page a click asks for; a disabled button asks for nothing. */
  function Requested(bar: PaginationBar, click: Click): Option<int> {
    match click
    case ClickPrevious => if bar.previous.disabled then None else Some(bar.previous.target)
    case ClickNext => if bar.next.disabled then None else Some(bar.next.target)
    case ClickEntry(i) => if i < |bar.entries| then Some(bar.entries[i].number) else None
  }

  /** Previous asks for the page before the current one and is disabled exactly on page
      1; Next asks for the page after it and is disabled exactly on the last page; a
      numbered entry asks for its own page. */
  lemma NavigationRequests(current: int, totalPages: int, i: nat)
    ensures var bar := Bar(current, totalPages);
      && (Requested(bar, ClickPrevious) == Some(current - 1) <==> current != 1)
      && (Requested(bar, ClickPrevious) == None <==> current == 1)
      && (Requested(bar, ClickNext) == Some(current + 1) <==> current != totalPages)
      && (Requested(bar, ClickNext) == None <==> current == totalPages)
      && (i < |bar.entries| ==> Requested(bar, ClickEntry(i)) == Some(PageList(current, totalPages)[i]))
  {
  }

  /** The ellipses mark exactly the hidden pages: the pages between two neighbouring
      entries are all hidden, an ellipsis stands before an entry exactly when some page
      lies between it and its predecessor, never before the first entry, and every hidden
      page of 1..totalPages lies just before an entry that has an ellipsis. */
  lemma EllipsesMarkHiddenPages(current: int, totalPages: int)
    ensures var pages := PageList(current, totalPages);
      var entries := Entries(pages, current);
      && (|entries| > 0 ==> !entries[0].ellipsisBefore)
      && (forall i, p :: 0 < i < |pages| && Between(pages[i - 1], p, pages[i]) ==>
            1 <= p <= totalPages && !Shown(p, current, totalPages))
      && (forall i :: 0 < i < |pages| ==>
            (entries[i].ellipsisBefore <==> !Shown(pages[i - 1] + 1, current, totalPages)))
      && (forall p :: 1 <= p <= totalPages && !Shown(p, current, totalPages) ==>
            exists i :: 0 < i < |pages| && Between(pages[i - 1], p, pages[i]) && entries[i].ellipsisBefore)
  {
    HiddenBetweenEntries(current, totalPages);
    EllipsisIffGap(current, totalPages);
    EveryHiddenPageMarked(current, totalPages);
  }

  lemma HiddenBetweenEntries(current: int, totalPages: int)
    ensures var pages := PageList(current, totalPages);
      forall i, p :: 0 < i < |pages| && Between(pages[i - 1], p, pages[i]) ==>
        1 <= p <= totalPages && !Shown(p, current, totalPages)
  {
    var pages := PageList(current, totalPages);
    PageListSpec(current, totalPages);
    forall i, p | 0 < i < |pages| && Between(pages[i - 1], p, pages[i])
      ensures 1 <= p <= totalPages && !Shown(p, current, totalPages)
    {
      assert pages[i - 1] in pages && pages[i] in pages;
      forall k | 0 <= k < |pages| ensures pages[k] != p {
        if k < i {
          assert pages[k] <= pages[i - 1];
        } else {
          assert pages[k] >= pages[i];
        }
      }
      assert p !in pages;
    }
  }

  lemma EllipsisIffGap(current: int, totalPages: int)
    ensures var pages := PageList(current, totalPages);
      var entries := Entries(pages, current);
      forall i :: 0 < i < |pages| ==>
        (entries[i].ellipsisBefore <==> !Shown(pages[i - 1] + 1, current, totalPages))
  {
    var pages := PageList(current, totalPages);
    var entries := Entries(pages, current);
    HiddenBetweenEntries(current, totalPages);
    PageListSpec(current, totalPages);
    forall i | 0 < i < |pages|
      ensures entries[i].ellipsisBefore <==> !Shown(pages[i - 1] + 1, current, totalPages)
    {
      if entries[i].ellipsisBefore {
        assert Between(pages[i - 1], pages[i - 1] + 1, pages[i]);
      } else {
        assert pages[i - 1] + 1 == pages[i] && pages[i] in pages;
      }
    }
  }

  lemma EveryHiddenPageMarked(current: int, totalPages: int)
    ensures var pages := PageList(current, totalPages);
      var entries := Entries(pages, current);
      forall p :: 1 <= p <= totalPages && !Shown(p, current, totalPages) ==>
        exists i :: 0 < i < |pages| && Between(pages[i - 1], p, pages[i]) && entries[i].ellipsisBefore
  {
    var pages := PageList(current, totalPages);
    var entries := Entries(pages, current);
    PageListSpec(current, totalPages);
    forall p | 1 <= p <= totalPages && !Shown(p, current, totalPages)
      ensures exists i :: 0 < i < |pages| && Between(pages[i - 1], p, pages[i]) && entries[i].ellipsisBefore
    {
      assert p !in pages;
      var i := GapAround(pages, p, |pages| - 1);
      assert Between(pages[i - 1], p, pages[i]) && entries[i].ellipsisBefore;
    }
  }

  /** In an ascending list that starts below `p`, has an entry above `p` at `k` and does
      not contain `p`, finds the neighbours around `p`. */
  lemma {:induction false} GapAround(pages: seq<int>, p: int, k: nat) returns (i: nat)
    requires StrictlyIncreasing(pages) && p !in pages
    requires 0 < k < |pages| && pages[0] < p < pages[k]
    ensures 0 < i <= k && pages[i - 1] < p < pages[i]
  {
    if pages[k - 1] < p {
      i := k;
    } else {
      assert pages[k - 1] != p;
      i := GapAround(pages, p, k - 1);
    }
  }

  /** Exactly the entry of the current page is highlighted; there is one such entry when
      the current page is within 1..totalPages, and none otherwise. */
  lemma HighlightCurrent(current: int, totalPages: int)
    ensures var entries := Entries(PageList(current, totalPages), current);
      && (forall i :: 0 <= i < |entries| ==> (entries[i].highlighted <==> entries[i].number == current))
      && ((exists i :: 0 <= i < |entries| && entries[i].highlighted) <==> 1 <= current <= totalPages)
      && (forall i, j :: 0 <= i < j < |entries| ==> !(entries[i].highlighted && entries[j].highlighted))
  {
    var pages := PageList(current, totalPages);
    var entries := Entries(pages, current);
    PageListSpec(current, totalPages);
    if 1 <= current <= totalPages {
      assert current in pages;
      var k :| 0 <= k < |pages| && pages[k] == current;
      assert entries[k].highlighted;
    }
    forall i | 0 <= i < |entries| && entries[i].highlighted ensures 1 <= current <= totalPages {
      assert pages[i] in pages;
    }
  }

  // ---------------------------------------------------------------------------------
  // The whole rendering, and the flat order of the bar's controls on screen.

  datatype Control = Previous(target: int, disabled: bool) | Ellipsis | Page(number: int, current: bool) | Next(target: int, disabled: bool)

  function EntryControls(entries: seq<PageEntry>): seq<Control> {
    if entries == [] then []
    else
      (if entries[0].ellipsisBefore then [Ellipsis] else [])
        + [Page(entries[0].number, entries[0].highlighted)]
        + EntryControls(entries[1..])
  }

  function Controls(bar: PaginationBar): seq<Control> {
    [Previous(bar.previous.target, bar.previous.disabled)]
      + EntryControls(bar.entries)
      + [Next(bar.next.target, bar.next.disabled)]
  }

  datatype View = View(countLine: string, items: seq<ItemView>, pagination: Option<PaginationBar>)

  function Render(response: SearchPage, queryTime: Option<nat>): View {
    View(CountLine(response.total, queryTime), RenderItems(response.items), Pagination(response))
  }

  /** The entries of the seven-page bar on page 4. */
  lemma SevenPageEntries()
    ensures Bar(4, 7).entries == [PageEntry(1, false, false), PageEntry(3, true, false),
      PageEntry(4, false, true), PageEntry(5, false, false), PageEntry(7, true, false)]
  {
    assert ShownFrom(5, 4, 7) == [5, 7];
    assert ShownFrom(2, 4, 7) == [3, 4, 5, 7];
    assert PageList(4, 7) == [1, 3, 4, 5, 7];
  }

  /** Seven pages, on page 4: 1 … 3 4 5 … 7, Previous to 3 and Next to 5, both enabled. */
  lemma SevenPagesOnPageFour()
    ensures Controls(Bar(4, 7)) == [
      Previous(3, false), Page(1, false), Ellipsis, Page(3, false), Page(4, true),
      Page(5, false), Ellipsis, Page(7, false), Next(5, false)]
  {
    var entries := [PageEntry(1, false, false), PageEntry(3, true, false), PageEntry(4, false, true),
                    PageEntry(5, false, false), PageEntry(7, true, false)];
    SevenPageEntries();
    assert EntryControls(entries[4..]) == [Ellipsis, Page(7, false)];
    assert EntryControls(entries[2..]) == [Page(4, true), Page(5, false)] + EntryControls(entries[4..]);
    assert EntryControls(entries) == [Page(1, false), Ellipsis, Page(3, false)] + EntryControls(entries[2..]);
  }

  /** Three pages, on page 1: 1 2 3 without ellipsis, Previous disabled, Next enabled. */
  lemma ThreePagesOnPageOne()
    ensures Controls(Bar(1, 3)) == [
      Previous(0, true), Page(1, true), Page(2, false), Page(3, false), Next(2, false)]
  {
    assert PageList(1, 3) == [1, 2, 3];
  }

  /** No results, as both back ends report them, render "Found 0 results" and no bar. */
  lemma NoResultsView(response: SearchPage, queryTime: Option<nat>)
    requires response.total == 0
    requires response.totalPages == None || response.totalPages == Some(0)
    ensures Render(response, queryTime).pagination == None
    ensures queryTime == None ==> Render(response, queryTime).countLine == "Found 0 results"
  {
  }
}
