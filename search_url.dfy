/**
 * The query URL of the gateway: repositories created after a date, most
 * starred first, one page of results.
 */
module SearchUrl {
  import opened Options
  import opened Decimal

  /** The API root, fixed when the gateway is built. */
  const BaseUrl: string := "https://api.github.com"

  /** The repository-search endpoint below the root. */
  const SearchReposApi: string := "/search/repositories"

  /** Everything before the date. */
  const QueryHead: string := BaseUrl + SearchReposApi + "?q=created:>"

  /** Everything between the date and the page number. */
  const QueryTail: string := "&sort=stars" + "&order=desc&page="

  /** The shape of `LocalDate.toString()` for years 0000-9999: `YYYY-MM-DD`. */
  predicate IsIsoDate(d: string) {
    && |d| == 10
    && d[4] == '-' && d[7] == '-'
    && forall i :: 0 <= i < 10 && i != 4 && i != 7 ==> IsDigit(d[i])
  }

  /**
   * The search URL for repositories created after `formattedDate`, page `chunk`.
   * The date is copied verbatim after the head, and the page's decimal text ends the URL.
   */
  function MostStaredReposSinceDateUrl(formattedDate: string, chunk: Int32): (url: string)
    ensures |url| == |QueryHead| + |formattedDate| + |QueryTail| + |IntToString(chunk)|
    ensures url[..|QueryHead|] == QueryHead
    ensures url[|QueryHead|..|QueryHead| + |formattedDate|] == formattedDate
    ensures url[|QueryHead| + |formattedDate|..|url| - |IntToString(chunk)|] == QueryTail
    ensures url[|url| - |IntToString(chunk)|..] == IntToString(chunk)
  {
    QueryHead + formattedDate + QueryTail + IntToString(chunk)
  }

  /**
   * Recovers the date and the page from a search URL. It accepts exactly the
   * URLs `MostStaredReposSinceDateUrl` builds from an ISO date.
   */
  function ParseSearchUrl(url: string): (r: Option<(string, Int32)>)
  {
    var dateEnd := |QueryHead| + 10;
    var pageStart := dateEnd + |QueryTail|;
    if |url| < pageStart || url[..|QueryHead|] != QueryHead || url[dateEnd..pageStart] != QueryTail then
      None
    else
      var date := url[|QueryHead|..dateEnd];
      var page := ParseInt(url[pageStart..]);
      if IsIsoDate(date) && page.Some? && -0x8000_0000 <= page.value < 0x8000_0000 then
        Some((date, page.value as Int32))
      else
        None
  }

  // Dafny settles the concatenation of string literals one join at a time,
  // and only when few such facts are in scope: the example is proved in steps.

  /** The fixed parts of the URL, spelled out. */
  lemma QueryPartsSpelledOut()
    ensures QueryHead == "https://api.github.com/search/repositories?q=created:>"
    ensures QueryTail == "&sort=stars&order=desc&page="
  {
    assert BaseUrl + SearchReposApi == "https://api.github.com/search/repositories";
  }

  /** The three joins that assemble the example URL. */
  lemma ExampleUrlJoins()
    ensures "https://api.github.com/search/repositories?q=created:>" + "2021-01-02"
         == "https://api.github.com/search/repositories?q=created:>2021-01-02"
    ensures "https://api.github.com/search/repositories?q=created:>2021-01-02" + "&sort=stars&order=desc&page="
         == "https://api.github.com/search/repositories?q=created:>2021-01-02&sort=stars&order=desc&page="
    ensures "https://api.github.com/search/repositories?q=created:>2021-01-02&sort=stars&order=desc&page=" + "3"
         == "https://api.github.com/search/repositories?q=created:>2021-01-02&sort=stars&order=desc&page=3"
  {
  }

  /** The example URL: 2 January 2021 (the date format's own example), page 3. */
  lemma ExampleUrl()
    ensures MostStaredReposSinceDateUrl("2021-01-02", 3)
         == "https://api.github.com/search/repositories?q=created:>2021-01-02&sort=stars&order=desc&page=3"
  {
    assert IntToString(3) == "3" by {
      assert NatDigits(3) == [DigitChar(3)];
    }
    QueryPartsSpelledOut();
    ExampleUrlJoins();
  }

  /** Building then parsing recovers the date and the page. */
  lemma UrlRoundTrip(date: string, chunk: Int32)
    requires IsIsoDate(date)
    ensures ParseSearchUrl(MostStaredReposSinceDateUrl(date, chunk)) == Some((date, chunk))
  {
    var url := MostStaredReposSinceDateUrl(date, chunk);
    var pageStart := |QueryHead| + 10 + |QueryTail|;
    assert url[pageStart..] == IntToString(chunk);
    IntToStringRoundTrip(chunk);
  }

  /** Every URL the parser accepts is the one built from what it returns. */
  lemma ParsedUrlIsBuilt(url: string, date: string, chunk: Int32)
    requires ParseSearchUrl(url) == Some((date, chunk))
    ensures IsIsoDate(date)
    ensures url == MostStaredReposSinceDateUrl(date, chunk)
  {
    var dateEnd := |QueryHead| + 10;
    var pageStart := dateEnd + |QueryTail|;
    ParseIntRoundTrip(url[pageStart..], chunk);
    assert url == url[..|QueryHead|] + url[|QueryHead|..dateEnd] + url[dateEnd..pageStart] + url[pageStart..];
  }

  /** For ISO dates, distinct (date, page) pairs give distinct URLs. */
  lemma UrlInjective(d1: string, p1: Int32, d2: string, p2: Int32)
    requires IsIsoDate(d1) && IsIsoDate(d2)
    requires MostStaredReposSinceDateUrl(d1, p1) == MostStaredReposSinceDateUrl(d2, p2)
    ensures d1 == d2 && p1 == p2
  {
    UrlRoundTrip(d1, p1);
    UrlRoundTrip(d2, p2);
  }

  /** For any one date, whatever its format, distinct pages give distinct URLs. */
  lemma UrlInjectiveInPage(date: string, p1: Int32, p2: Int32)
    requires MostStaredReposSinceDateUrl(date, p1) == MostStaredReposSinceDateUrl(date, p2)
    ensures p1 == p2
  {
    var u := MostStaredReposSinceDateUrl(date, p1);
    var k := |QueryHead| + |date| + |QueryTail|;
    assert u[k..] == IntToString(p1);
    assert MostStaredReposSinceDateUrl(date, p2)[k..] == IntToString(p2);
    IntToStringInjective(p1, p2);
  }
}
