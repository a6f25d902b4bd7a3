/**
 * The listing crawl of scrape_urls.py: listing-page URLs, the filter that
 * picks cell detail links out of a listing page, and the loop that walks
 * the listing pages collecting new links until a page is missing or brings
 * nothing new. Fetching is abstracted: the responses to the listing pages
 * are given in page order.
 */
module Listing {
  import opened Text
  import opened Wrappers
  import opened Numbers

  const BaseUrl: String := "https://www.batemo.com/products/batemo-cell-explorer/"
  const Mode: String := "normal"
  const View: String := "power-vs-energy-gravimetric"

  /** The path prefix of cell detail pages. */
  const ExplorerPath: String := "/products/batemo-cell-explorer/"

  // ---------------------------------------------------------------------------
  // build_listing_url
  // ---------------------------------------------------------------------------

  /** The URL of the first listing page, which carries no page parameter. */
  const FirstListingUrl: String := BaseUrl + "?mode=" + Mode + "&view=" + View

  /** `build_listing_url`: any page up to 1 is the first page; later pages add `&product-page=<page>`. */
  function BuildListingUrl(page: int): (url: String)
    ensures StartsWith(url, BaseUrl) && StartsWith(url, FirstListingUrl)
    ensures page <= 1 <==> url == FirstListingUrl
    ensures page >= 2 ==> var prefix := FirstListingUrl + "&product-page=";
      |url| > |prefix| && url[..|prefix|] == prefix
      && AllDigits(url[|prefix|..]) && DigitsValue(url[|prefix|..]) == page && url[|prefix|] != '0'
  {
    if page <= 1 then FirstListingUrl
    else FirstListingUrl + "&product-page=" + NatToString(page)
  }

  lemma NatToStringInjective(m: nat, n: nat)
    requires NatToString(m) == NatToString(n)
    ensures m == n
  {
  }

  /** Different pages from 1 on have different URLs. */
  lemma {:induction false} BuildListingUrlInjective(p: int, q: int)
    requires p >= 1 && q >= 1 && BuildListingUrl(p) == BuildListingUrl(q)
    ensures p == q
  {
    if p >= 2 && q >= 2 {
      var prefix := FirstListingUrl + "&product-page=";
      var u := BuildListingUrl(p);
      assert u[|prefix|..] == NatToString(p);
      assert BuildListingUrl(q)[|prefix|..] == NatToString(q);
      NatToStringInjective(p, q);
    }
  }

  // ---------------------------------------------------------------------------
  // extract_cell_urls_from_html
  // ---------------------------------------------------------------------------

  /**
   * An `<a href>` of a listing page: the href, the host and path that
   * `urlparse` finds in it, and `urljoin(BASE_URL, href)`.
   */
  datatype Anchor = Anchor(href: String, netloc: String, path: String, joined: String)

  /** The path the filter looks at: the parsed path when the href names a host, the href itself otherwise. */
  function FilterPath(a: Anchor): String {
    if a.netloc != [] then a.path else a.href
  }

  /** Whether an anchor links to a cell detail page. */
  predicate Keep(a: Anchor) {
    a.href != [] && StartsWith(FilterPath(a), ExplorerPath)
  }

  /** The joined URLs of the kept anchors, in anchor order, duplicates included. */
  function KeptUrls(anchors: seq<Anchor>): (urls: seq<String>)
    ensures |urls| <= |anchors|
  {
    if anchors == [] then []
    else
      var init := KeptUrls(anchors[..|anchors| - 1]);
      var a := anchors[|anchors| - 1];
      if Keep(a) then init + [a.joined] else init
  }

  /** `extract_cell_urls_from_html`: one pass over the anchors, appending each kept one. */
  method ExtractCellUrls(anchors: seq<Anchor>) returns (urls: seq<String>)
    ensures urls == KeptUrls(anchors)
  {
    urls := [];
    for k := 0 to |anchors|
      invariant urls == KeptUrls(anchors[..k])
    {
      var a := anchors[k];
      assert anchors[..k + 1][..k] == anchors[..k];
      if a.href == [] {
        continue;
      }
      var path := if a.netloc != [] then a.path else a.href;
      if StartsWith(path, ExplorerPath) {
        urls := urls + [a.joined];
      }
    }
    assert anchors[..|anchors|] == anchors;
  }

  /** A URL is extracted exactly when some kept anchor joins to it. */
  lemma {:induction false} KeptUrlsMembers(anchors: seq<Anchor>, u: String)
    ensures u in KeptUrls(anchors) <==> exists i :: 0 <= i < |anchors| && Keep(anchors[i]) && anchors[i].joined == u
    decreases |anchors|
  {
    if anchors != [] {
      var init := anchors[..|anchors| - 1];
      KeptUrlsMembers(init, u);
      if exists i :: 0 <= i < |init| && Keep(init[i]) && init[i].joined == u {
        var i :| 0 <= i < |init| && Keep(init[i]) && init[i].joined == u;
        assert anchors[i] == init[i];
      }
      if exists i :: 0 <= i < |anchors| - 1 && Keep(anchors[i]) && anchors[i].joined == u {
        var i :| 0 <= i < |anchors| - 1 && Keep(anchors[i]) && anchors[i].joined == u;
        assert init[i] == anchors[i];
      }
    }
  }

  /** The anchors of two stretches of a page give their URLs one after the other: order is kept. */
  lemma {:induction false} KeptUrlsAppend(a: seq<Anchor>, b: seq<Anchor>)
    ensures KeptUrls(a + b) == KeptUrls(a) + KeptUrls(b)
    decreases |b|
  {
    if b == [] {
      assert a + b == a;
    } else {
      var init := b[..|b| - 1];
      assert (a + b)[..|a + b| - 1] == a + init;
      KeptUrlsAppend(a, init);
    }
  }

  /** A detail link that appears twice is extracted twice. */
  lemma KeptUrlsKeepsDuplicates(a: Anchor)
    requires Keep(a)
    ensures KeptUrls([a, a]) == [a.joined, a.joined]
  {
    assert [a, a][..1] == [a];
    assert [a][..0] == [];
  }

  // ---------------------------------------------------------------------------
  // collect_all_cell_urls
  // ---------------------------------------------------------------------------

  /** The response to one listing page request. */
  datatype Response = Response(status: int, anchors: seq<Anchor>)

  /** `raise_for_status` raises for client and server errors. */
  predicate IsHttpError(status: int) {
    400 <= status < 600
  }

  /** `[u for u in page_urls if u not in seen]`. */
  function NewUrls(pageUrls: seq<String>, seen: set<String>): (r: seq<String>)
    ensures |r| <= |pageUrls|
    ensures forall u :: u in r <==> u in pageUrls && u !in seen
  {
    if pageUrls == [] then []
    else
      var init := NewUrls(pageUrls[..|pageUrls| - 1], seen);
      var u := pageUrls[|pageUrls| - 1];
      assert pageUrls == pageUrls[..|pageUrls| - 1] + [u];
      if u !in seen then init + [u] else init
  }

  function Elements(s: seq<String>): set<String> {
    set u | u in s
  }

  /**
   * What the crawl collects from page `page` on, having seen `seen`:
   * `responses[i]` answers page `i + 1`, and a page past the end of the
   * responses is missing like a 404. An HTTP error other than 404 stops the
   * crawl with that status.
   */
  function Crawl(responses: seq<Response>, page: nat, seen: set<String>): Result<set<String>, int>
    requires page >= 1
    decreases |responses| + 1 - page
  {
    if page > |responses| || responses[page - 1].status == 404 then Ok(seen)
    else if IsHttpError(responses[page - 1].status) then Err(responses[page - 1].status)
    else
      var newUrls := NewUrls(KeptUrls(responses[page - 1].anchors), seen);
      if newUrls == [] then Ok(seen)
      else Crawl(responses, page + 1, seen + Elements(newUrls))
  }

  /** The crawl only adds: everything seen before is in the result. */
  lemma {:induction false} CrawlGrows(responses: seq<Response>, page: nat, seen: set<String>)
    requires page >= 1 && Crawl(responses, page, seen).Ok?
    ensures seen <= Crawl(responses, page, seen).value
    decreases |responses| + 1 - page
  {
    if !(page > |responses| || responses[page - 1].status == 404) {
      var newUrls := NewUrls(KeptUrls(responses[page - 1].anchors), seen);
      if newUrls != [] {
        CrawlGrows(responses, page + 1, seen + Elements(newUrls));
      }
    }
  }

  /** Every collected URL was seen before or is the link of a cell on one of the pages from `page` on. */
  lemma {:induction false} CrawlSound(responses: seq<Response>, page: nat, seen: set<String>, u: String)
    requires page >= 1 && Crawl(responses, page, seen).Ok?
    requires u in Crawl(responses, page, seen).value
    ensures u in seen || exists i :: page - 1 <= i < |responses| && u in KeptUrls(responses[i].anchors)
    decreases |responses| + 1 - page
  {
    if !(page > |responses| || responses[page - 1].status == 404) {
      var pageUrls := KeptUrls(responses[page - 1].anchors);
      var newUrls := NewUrls(pageUrls, seen);
      if newUrls != [] {
        CrawlSound(responses, page + 1, seen + Elements(newUrls), u);
        if u !in seen && u !in Elements(newUrls) {
          var i :| page <= i < |responses| && u in KeptUrls(responses[i].anchors);
        } else if u !in seen {
          assert u in pageUrls;
        }
      }
    }
  }

  /** Every cell link on a page the crawl reads, the last one included, is in the result. */
  lemma {:induction false} CrawlComplete(responses: seq<Response>, page: nat, seen: set<String>)
    requires page >= 1 && Crawl(responses, page, seen).Ok?
    requires page <= |responses| && responses[page - 1].status != 404
    ensures forall u :: u in KeptUrls(responses[page - 1].anchors) ==> u in Crawl(responses, page, seen).value
  {
    var pageUrls := KeptUrls(responses[page - 1].anchors);
    var newUrls := NewUrls(pageUrls, seen);
    if newUrls != [] {
      CrawlGrows(responses, page + 1, seen + Elements(newUrls));
    }
  }

  /** A listing whose first page is missing yields nothing. */
  lemma CrawlFirstPageMissing(responses: seq<Response>)
    requires responses == [] || responses[0].status == 404
    ensures Crawl(responses, 1, {}) == Ok({})
  {
  }

  // ---------------------------------------------------------------------------
  // sorted(seen)
  // ---------------------------------------------------------------------------

  /** Python's ordering of `str`: by code point, a proper prefix first. */
  predicate LexLess(a: String, b: String) {
    if a == [] then b != []
    else b != [] && (a[0] < b[0] || (a[0] == b[0] && LexLess(a[1..], b[1..])))
  }

  lemma LexLessIrreflexive(a: String)
    ensures !LexLess(a, a)
  {
  }

  lemma {:induction false} LexLessTransitive(a: String, b: String, c: String)
    requires LexLess(a, b) && LexLess(b, c)
    ensures LexLess(a, c)
    decreases |a|
  {
    if a != [] && b != [] && c != [] && a[0] == b[0] && b[0] == c[0] {
      LexLessTransitive(a[1..], b[1..], c[1..]);
    }
  }

  lemma {:induction false} LexLessTotal(a: String, b: String)
    requires a != b
    ensures LexLess(a, b) || LexLess(b, a)
    decreases |a|
  {
    if a != [] && b != [] && a[0] == b[0] {
      assert a[1..] != b[1..] by {
        assert a == [a[0]] + a[1..] && b == [b[0]] + b[1..];
      }
      LexLessTotal(a[1..], b[1..]);
    }
  }

  predicate StrictlySorted(s: seq<String>) {
    forall i, j :: 0 <= i < j < |s| ==> LexLess(s[i], s[j])
  }

  /** `x` put into its place in a strictly sorted sequence that lacks it. */
  function Insert(x: String, s: seq<String>): (r: seq<String>)
    requires StrictlySorted(s) && x !in s
    ensures StrictlySorted(r) && Elements(r) == Elements(s) + {x} && |r| == |s| + 1
  {
    if s == [] then [x]
    else if LexLess(x, s[0]) then
      forall j | 0 <= j < |s| ensures LexLess(x, s[j]) {
        if j > 0 {
          LexLessTransitive(x, s[0], s[j]);
        }
      }
      assert Elements([x] + s) == Elements(s) + {x};
      [x] + s
    else
      LexLessTotal(x, s[0]);
      var rest := Insert(x, s[1..]);
      assert s == [s[0]] + s[1..];
      assert Elements(s) == {s[0]} + Elements(s[1..]);
      var r := [s[0]] + rest;
      assert forall j :: 0 < j < |r| ==> r[j] == rest[j - 1];
      assert forall j :: 0 < j < |r| ==> r[j] in Elements(s[1..]) + {x};
      assert Elements(r) == {s[0]} + Elements(rest);
      r
  }

  /** `sorted(seen)`: the elements of a set in increasing order, each once. */
  method SortSet(seen: set<String>) returns (r: seq<String>)
    ensures StrictlySorted(r) && Elements(r) == seen && |r| == |seen|
  {
    r := [];
    var rest := seen;
    while rest != {}
      invariant StrictlySorted(r) && Elements(r) + rest == seen && Elements(r) !! rest
      invariant |r| + |rest| == |seen|
      decreases |rest|
    {
      var x :| x in rest;
      r := Insert(x, r);
      rest := rest - {x};
    }
  }

  /**
   * `collect_all_cell_urls`: walks the listing pages from 1, stops at a
   * missing page or at the first page without a new link, and returns every
   * link collected, sorted and without repetition; an HTTP error other than
   * 404 ends it with that status.
   */
  method CollectAllCellUrls(responses: seq<Response>) returns (r: Result<seq<String>, int>)
    ensures r.Err? <==> Crawl(responses, 1, {}).Err?
    ensures r.Err? ==> r.error == Crawl(responses, 1, {}).error
    ensures r.Ok? ==> StrictlySorted(r.value) && Elements(r.value) == Crawl(responses, 1, {}).value
  {
    var seen: set<String> := {};
    var page := 1;
    while true
      invariant 1 <= page <= |responses| + 1
      invariant Crawl(responses, page, seen) == Crawl(responses, 1, {})
      invariant |seen| >= page - 1
      decreases |responses| + 1 - page
    {
      if page > |responses| {
        break;
      }
      var resp := responses[page - 1];
      if resp.status == 404 {
        break;
      }
      if IsHttpError(resp.status) {
        return Err(resp.status);
      }
      var pageUrls := ExtractCellUrls(resp.anchors);
      var newUrls := NewUrls(pageUrls, seen);
      if newUrls == [] {
        break;
      }
      assert newUrls[0] in Elements(newUrls) && newUrls[0] !in seen;
      seen := seen + Elements(newUrls);
      page := page + 1;
    }
    var all := SortSet(seen);
    return Ok(all);
  }
}
