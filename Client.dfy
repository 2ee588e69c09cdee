/**
  The browser script public/script.js: the checks the shorten button makes
  before any request, the `https://` prefixing, the character-counter colours,
  and the paginated list of short links (`allUrls`, `currentPage`,
  `displayUrls`, `displayPage`, `changePage`). What is rendered is modelled
  as a `View` value, not as HTML.
 */
module Client {
  import opened Wrappers
  import opened JsStrings

  const MaxUrlLength: nat := 2000
  const MaxNameLength: nat := 50
  const ItemsPerPage: nat := 10

  // ---------------------------------------------------------------------------
  // The shorten button
  // ---------------------------------------------------------------------------

  /** The three messages shown instead of sending a request. */
  datatype ClientError = EmptyUrl | UrlTooLong | NameTooLong

  /** The JSON body posted to `/api/shorten`. */
  datatype Outgoing = Outgoing(originalUrl: string, customName: string)

  predicate HasScheme(url: string) {
    StartsWith(url, "http://") || StartsWith(url, "https://")
  }

  /** Adds `https://` unless the URL already starts with `http://` or `https://`. */
  function FormatUrl(url: string): (r: string)
    ensures HasScheme(r)
    ensures EndsWith(r, url)
    ensures HasScheme(url) ==> r == url
    ensures !HasScheme(url) ==> r == "https://" + url
  {
    if HasScheme(url) then url else "https://" + url
  }

  /** Formatting a formatted URL changes nothing. */
  lemma FormatUrlIdempotent(url: string)
    ensures FormatUrl(FormatUrl(url)) == FormatUrl(url)
  {
  }

  /** The click handler up to the request: trim both inputs, check them in
      order, then format the URL. Lengths are JavaScript lengths. */
  function PrepareShorten(rawUrl: string, rawName: string): (r: Result<Outgoing, ClientError>)
    ensures r.Ok? ==> HasScheme(r.value.originalUrl) && EndsWith(r.value.originalUrl, Trim(rawUrl))
    ensures r.Ok? ==> r.value.customName == Trim(rawName) && Utf16Length(r.value.customName) <= MaxNameLength
    ensures r.Ok? <==> Trim(rawUrl) != "" && Utf16Length(Trim(rawUrl)) <= MaxUrlLength
                       && Utf16Length(Trim(rawName)) <= MaxNameLength
    ensures r.Ok? ==> r.value == Outgoing(FormatUrl(Trim(rawUrl)), Trim(rawName))
    ensures r == Err(EmptyUrl) <==> Trim(rawUrl) == ""
    ensures r == Err(UrlTooLong) <==> Trim(rawUrl) != "" && Utf16Length(Trim(rawUrl)) > MaxUrlLength
    ensures r == Err(NameTooLong) <==> Trim(rawUrl) != "" && Utf16Length(Trim(rawUrl)) <= MaxUrlLength
                                        && Utf16Length(Trim(rawName)) > MaxNameLength
  {
    var url := Trim(rawUrl);
    var name := Trim(rawName);
    if url == "" then Err(EmptyUrl)
    else if Utf16Length(url) > MaxUrlLength then Err(UrlTooLong)
    else if Utf16Length(name) > MaxNameLength then Err(NameTooLong)
    else Ok(Outgoing(FormatUrl(url), name))
  }

  // ---------------------------------------------------------------------------
  // Character counters
  // ---------------------------------------------------------------------------

  datatype Band = Grey | Yellow | Red

  function BandRank(b: Band): nat {
    match b
    case Grey => 0
    case Yellow => 1
    case Red => 2
  }

  /** `updateCharacterCount`: red over the limit, yellow over 80% of it, grey
      otherwise. `length > maxLength * 0.8` is written `5 * length > 4 * maxLength`. */
  function CounterBand(length: nat, maxLength: nat): (b: Band)
    ensures b == Red <==> length > maxLength
    ensures b == Grey <==> 5 * length <= 4 * maxLength
  {
    if length > maxLength then Red
    else if 5 * length > 4 * maxLength then Yellow
    else Grey
  }

  /** Typing more never moves the counter to a calmer colour. */
  lemma CounterBandMonotone(shorter: nat, longer: nat, maxLength: nat)
    requires shorter <= longer
    ensures BandRank(CounterBand(shorter, maxLength)) <= BandRank(CounterBand(longer, maxLength))
  {
  }

  /** Whenever the button refuses an input as too long, that input's counter
      already shows red: trimming only shortens. */
  lemma TooLongShowsRed(rawUrl: string, rawName: string)
    ensures PrepareShorten(rawUrl, rawName) == Err(UrlTooLong) ==>
      CounterBand(Utf16Length(rawUrl), MaxUrlLength) == Red
    ensures PrepareShorten(rawUrl, rawName) == Err(NameTooLong) ==>
      CounterBand(Utf16Length(rawName), MaxNameLength) == Red
  {
    Utf16LengthOfTrim(rawUrl);
    Utf16LengthOfTrim(rawName);
  }

  // ---------------------------------------------------------------------------
  // The list of short links
  // ---------------------------------------------------------------------------

  /** One row of the list. */
  datatype Entry = Entry(shortCode: string, originalUrl: string, shortUrl: string)

  /** The pagination block: "n URL'den first-last", the page counter and the two buttons. */
  datatype Pager = Pager(total: nat, first: int, last: int, page: int, totalPages: nat,
                         prevDisabled: bool, nextDisabled: bool)

  /** What the list element shows. */
  datatype View = Blank | EmptyMessage | PageView(items: seq<Entry>, pager: Option<Pager>)

  /** `Object.entries(urls).map(...)`: one entry per (code, URL) pair, in order,
      with `shortUrl = origin + "/" + shortCode`. */
  function Entries(pairs: seq<(string, string)>, origin: string): (r: seq<Entry>)
    ensures |r| == |pairs|
    ensures forall i :: 0 <= i < |r| ==>
      && r[i].shortCode == pairs[i].0 && r[i].originalUrl == pairs[i].1
      && StartsWith(r[i].shortUrl, origin + "/") && r[i].shortUrl[|origin| + 1..] == pairs[i].0
  {
    seq(|pairs|, i requires 0 <= i < |pairs| => Entry(pairs[i].0, pairs[i].1, origin + "/" + pairs[i].0))
  }

  /** `Math.ceil(n / itemsPerPage)`. */
  function TotalPages(n: nat): (t: nat)
    ensures n == 0 <==> t == 0
    ensures n > 0 ==> ItemsPerPage * (t - 1) < n <= ItemsPerPage * t
  {
    (n + ItemsPerPage - 1) / ItemsPerPage
  }

  /** `(page - 1) * itemsPerPage` */
  function PageStart(page: int): int {
    (page - 1) * ItemsPerPage
  }

  /** `allUrls.slice(startIndex, endIndex)`, where `slice` clamps both ends to the length. */
  function PageItems(all: seq<Entry>, page: int): (r: seq<Entry>)
    requires page >= 1
    ensures |r| <= ItemsPerPage
    ensures forall j :: 0 <= j < |r| ==> PageStart(page) + j < |all| && r[j] == all[PageStart(page) + j]
    ensures page <= TotalPages(|all|) ==> 1 <= |r| && |r| == if |all| - PageStart(page) < ItemsPerPage then |all| - PageStart(page) else ItemsPerPage
    ensures page > TotalPages(|all|) ==> r == []
  {
    var n := |all|;
    var s := PageStart(page);
    var lo := if s < n then s else n;
    var hi := if s + ItemsPerPage < n then s + ItemsPerPage else n;
    all[lo..hi]
  }

  /** `displayPage(page)`: the page's entries, and the pagination block when
      there is more than one page, which is when there are more than ten entries. */
  function Render(all: seq<Entry>, page: int): (v: View)
    requires page >= 1
    ensures v.PageView? && v.items == PageItems(all, page)
    ensures v.pager.Some? <==> |all| > ItemsPerPage
    ensures v.pager.Some? ==>
      && v.pager.value.total == |all| && v.pager.value.first == PageStart(page) + 1
      && v.pager.value.last == (if PageStart(page) + ItemsPerPage < |all| then PageStart(page) + ItemsPerPage else |all|)
      && v.pager.value.page == page && v.pager.value.totalPages == TotalPages(|all|)
      && (v.pager.value.prevDisabled <==> page == 1)
      && (v.pager.value.nextDisabled <==> page == TotalPages(|all|))
  {
    var n := |all|;
    var s := PageStart(page);
    var tp := TotalPages(n);
    PageView(PageItems(all, page),
             if tp > 1 then Some(Pager(n, s + 1, if s + ItemsPerPage < n then s + ItemsPerPage else n,
                                       page, tp, page == 1, page == tp))
             else None)
  }

  /** The model of the closure state of the script. */
  class UrlList {
    var allUrls: seq<Entry>
    var currentPage: int
    var shown: View

    /** `currentPage` only ever takes values `changePage` accepted, and starts at 1. */
    ghost predicate Valid()
      reads this
    {
      currentPage >= 1
    }

    constructor ()
      ensures Valid() && allUrls == [] && currentPage == 1 && shown == Blank
    {
      allUrls := [];
      currentPage := 1;
      shown := Blank;
    }

    /** `displayUrls(urls)`: replaces the list and shows the current page, or the
        empty message. `currentPage` is kept as it was. */
    method DisplayUrls(pairs: seq<(string, string)>, origin: string)
      requires Valid()
      modifies this
      ensures Valid() && allUrls == Entries(pairs, origin) && currentPage == old(currentPage)
      ensures shown == if pairs == [] then EmptyMessage else Render(allUrls, currentPage)
    {
      allUrls := Entries(pairs, origin);
      if |allUrls| == 0 {
        shown := EmptyMessage;
        return;
      }
      DisplayPage(currentPage);
    }

    method DisplayPage(page: int)
      requires page >= 1
      modifies this`shown
      ensures shown == Render(allUrls, page)
    {
      var n := |allUrls|;
      var startIndex := (page - 1) * ItemsPerPage;
      var endIndex := startIndex + ItemsPerPage;
      var lo := if startIndex < n then startIndex else n;
      var hi := if endIndex < n then endIndex else n;
      var pageUrls := allUrls[lo..hi];
      var totalPages := (n + ItemsPerPage - 1) / ItemsPerPage;
      var pager := None;
      if totalPages > 1 {
        pager := Some(Pager(n, startIndex + 1, hi, page, totalPages, page == 1, page == totalPages));
      }
      shown := PageView(pageUrls, pager);
    }

    /** `changePage(page)`: moves to `page` and redraws only when it is a page
        that exists; otherwise nothing changes. */
    method ChangePage(page: int)
      requires Valid()
      modifies this
      ensures Valid() && allUrls == old(allUrls)
      ensures if 1 <= page <= TotalPages(|allUrls|)
              then currentPage == page && shown == Render(allUrls, page)
              else currentPage == old(currentPage) && shown == old(shown)
    {
      var totalPages := (|allUrls| + ItemsPerPage - 1) / ItemsPerPage;
      if page >= 1 && page <= totalPages {
        currentPage := page;
        DisplayPage(page);
      }
    }
  }

  // ---------------------------------------------------------------------------
  // Properties of pagination
  // ---------------------------------------------------------------------------

  /** Entry `i` is shown on page `i / 10 + 1`, at row `i % 10`, and that page exists. */
  lemma EveryEntryOnItsPage(all: seq<Entry>, i: nat)
    requires i < |all|
    ensures var p := i / ItemsPerPage + 1;
      1 <= p <= TotalPages(|all|) && i % ItemsPerPage < |PageItems(all, p)|
      && PageItems(all, p)[i % ItemsPerPage] == all[i]
  {
    var p := i / ItemsPerPage + 1;
    assert PageStart(p) + i % ItemsPerPage == i;
  }

  /** On an existing page the range text matches the rows shown, and the block
      appears exactly when there are more than ten entries. */
  lemma PagerMatchesItems(all: seq<Entry>, page: int)
    requires 1 <= page <= TotalPages(|all|)
    ensures var v := Render(all, page);
      && (v.pager.Some? <==> |all| > ItemsPerPage)
      && (v.pager.Some? ==> v.pager.value.first == PageStart(page) + 1
                            && v.pager.value.last - v.pager.value.first + 1 == |v.items|)
  {
    var t := TotalPages(|all|);
    assert t > 1 <==> |all| > ItemsPerPage;
  }

  /** On an existing page a button is enabled exactly when `changePage` would
      accept the page it asks for. */
  lemma ButtonsMatchChangePage(all: seq<Entry>, page: int)
    requires 1 <= page <= TotalPages(|all|) && TotalPages(|all|) > 1
    ensures var p := Render(all, page).pager.value;
      && (!p.prevDisabled <==> 1 <= page - 1 <= TotalPages(|all|))
      && (!p.nextDisabled <==> 1 <= page + 1 <= TotalPages(|all|))
  {
  }

  /** `displayUrls` keeps `currentPage`: after the list shrinks to at most ten
      entries while page 2 or later was open, the list shows no rows and no
      pagination block, and `changePage` cannot be reached from the page. */
  lemma StalePageShowsNothing(all: seq<Entry>, page: int)
    requires 0 < |all| <= ItemsPerPage && page >= 2
    ensures Render(all, page) == PageView([], None)
  {
    assert TotalPages(|all|) == 1;
  }

  /** The same stale page over more than ten entries shows no rows, but a
      block whose range runs backwards (first row past the total), whose page
      number exceeds the page count, and whose two buttons are both enabled. */
  lemma StalePageShowsBrokenPager(all: seq<Entry>, page: int)
    requires |all| > ItemsPerPage && page > TotalPages(|all|)
    ensures var v := Render(all, page);
      && v.items == [] && v.pager.Some?
      && v.pager.value.last == |all| && v.pager.value.first > v.pager.value.last
      && v.pager.value.page > v.pager.value.totalPages
      && !v.pager.value.prevDisabled && !v.pager.value.nextDisabled
  {
  }
}
