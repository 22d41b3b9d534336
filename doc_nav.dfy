/** The documentation site's page order (apps/site/src/components/doc-sidebar.tsx):
    the sidebar's sections flattened into one list of pages, and the pages
    before and after the one being shown. */
module DocNav {
  import opened Wrappers

  datatype DocPage = DocPage(title: string, url: string)
  datatype Section = Section(title: string, items: seq<DocPage>)

  /** The sidebar's sections, in order. */
  const DocSections: seq<Section> := [
    Section("Getting Started", [
      DocPage("Introduction", "/docs/getting-started/introduction"),
      DocPage("Get Started", "/docs/getting-started/get-started"),
      DocPage("Tutorials", "/docs/getting-started/tutorials")]),
    Section("Playground", [
      DocPage("Guide", "/docs/playground/guide"),
      DocPage("Live print", "/docs/playground/live-print"),
      DocPage("Supported commands", "/docs/playground/supported-commands"),
      DocPage("Limitations", "/docs/playground/limitations")]),
    Section("API Reference", [
      DocPage("Overview", "/docs/api-reference/overview"),
      DocPage("ZPLParser", "/docs/api-reference/zpl-parser"),
      DocPage("ZPLRenderer", "/docs/api-reference/zpl-renderer"),
      DocPage("zpl", "/docs/api-reference/zpl"),
      DocPage("PrinterProvider", "/docs/api-reference/printer-provider"),
      DocPage("usePrinter", "/docs/api-reference/use-printer"),
      DocPage("useLabel", "/docs/api-reference/use-label"),
      DocPage("usePrint", "/docs/api-reference/use-print")])
  ]

  /** The `reduce` of `getAllPages`: each section's items appended, in
      section order, to the pages gathered so far. A page is in the flat
      list exactly when some section holds it. */
  function Flatten(sections: seq<Section>): (r: seq<DocPage>)
    ensures forall p :: p in r <==> exists k :: 0 <= k < |sections| && p in sections[k].items
  {
    if sections == [] then []
    else Flatten(sections[..|sections| - 1]) + sections[|sections| - 1].items
  }

  /** Flattening a concatenation of sections concatenates the flattenings. */
  lemma {:induction false} FlattenAppend(front: seq<Section>, back: seq<Section>)
    ensures Flatten(front + back) == Flatten(front) + Flatten(back)
    decreases |back|
  {
    if back == [] {
      assert front + back == front;
    } else {
      var n := |back| - 1;
      assert (front + back)[..|front + back| - 1] == front + back[..n];
      FlattenAppend(front, back[..n]);
    }
  }

  /** `getAllPages`. */
  function AllPages(): (r: seq<DocPage>)
    ensures |r| == 15
    ensures r[..3] == DocSections[0].items
    ensures r[3..7] == DocSections[1].items
    ensures r[7..] == DocSections[2].items
  {
    var s0, s1, s2 := DocSections[0].items, DocSections[1].items, DocSections[2].items;
    assert DocSections[..1][..0] == [];
    assert Flatten(DocSections[..1]) == s0;
    assert DocSections[..2][..1] == DocSections[..1];
    assert Flatten(DocSections[..2]) == s0 + s1;
    assert DocSections[..2] == DocSections[..|DocSections| - 1];
    assert Flatten(DocSections) == s0 + s1 + s2;
    Flatten(DocSections)
  }

  /** `findIndex`: the position of the first page with the URL, or -1. */
  function FindIndex(pages: seq<DocPage>, url: string): (r: int)
    ensures -1 <= r < |pages|
    ensures r == -1 <==> forall k :: 0 <= k < |pages| ==> pages[k].url != url
    ensures 0 <= r ==> pages[r].url == url && forall k :: 0 <= k < r ==> pages[k].url != url
  {
    if pages == [] then -1
    else if pages[0].url == url then 0
    else
      var r := FindIndex(pages[1..], url);
      if r == -1 then -1 else r + 1
  }

  datatype Adjacent = Adjacent(previousPage: Option<DocPage>, nextPage: Option<DocPage>, currentPage: Option<DocPage>)

  /** `getAdjacentPages` over a given list of pages. For an unknown URL the
      current page is `allPages[-1]`, which is `undefined`: `None` here. */
  function AdjacentIn(pages: seq<DocPage>, url: string): (r: Adjacent)
    ensures r.currentPage.None? <==> forall k :: 0 <= k < |pages| ==> pages[k].url != url
    ensures r.currentPage.None? ==> r.previousPage.None? && r.nextPage.None?
    ensures r.currentPage.Some? ==> r.currentPage.value.url == url
  {
    var i := FindIndex(pages, url);
    if i == -1 then Adjacent(None, None, None)
    else Adjacent(if i > 0 then Some(pages[i - 1]) else None,
                  if i < |pages| - 1 then Some(pages[i + 1]) else None,
                  Some(pages[i]))
  }

  function AdjacentPages(url: string): (r: Adjacent)
    ensures r == AdjacentIn(AllPages(), url)
  {
    AdjacentIn(AllPages(), url)
  }

  /** The page with the URL sits at `i`, and nowhere before it. */
  predicate FirstAt(pages: seq<DocPage>, url: string, i: int) {
    0 <= i < |pages| && pages[i].url == url && forall k :: 0 <= k < i ==> pages[k].url != url
  }

  /** The neighbours of the first page with the URL: the one before it,
      unless it is first, and the one after it, unless it is last. */
  lemma AdjacentAt(pages: seq<DocPage>, url: string, i: int)
    requires FirstAt(pages, url, i)
    ensures AdjacentIn(pages, url).currentPage == Some(pages[i])
    ensures AdjacentIn(pages, url).previousPage == if i > 0 then Some(pages[i - 1]) else None
    ensures AdjacentIn(pages, url).nextPage == if i < |pages| - 1 then Some(pages[i + 1]) else None
  {
  }

  predicate DistinctUrls(pages: seq<DocPage>) {
    forall k, m :: 0 <= k < m < |pages| ==> pages[k].url != pages[m].url
  }

  /** The site's pages have distinct URLs, so the lemmas below apply to it:
      the fifteen URLs are compared pairwise, within each section and
      between each two sections. */
  lemma SiteUrlsDistinct()
    ensures DistinctUrls(AllPages())
  {
    var p := AllPages();
    var a, b, c := DocSections[0].items, DocSections[1].items, DocSections[2].items;
    assert p == a + b + c;
    UrlsDistinctWithin(a);
    UrlsDistinctWithin(b);
    UrlsDistinctWithin(c);
    UrlsApart(a, b);
    UrlsApart(a, c);
    UrlsApart(b, c);
    forall k, m | 0 <= k < m < |p|
      ensures p[k].url != p[m].url
    {
      if m < 3 {
        assert p[k] == a[k] && p[m] == a[m];
      } else if m < 7 {
        assert p[m] == b[m - 3];
        if k >= 3 {
          assert p[k] == b[k - 3];
        }
      } else {
        assert p[m] == c[m - 7];
        if k >= 7 {
          assert p[k] == c[k - 7];
        } else if k >= 3 {
          assert p[k] == b[k - 3];
        }
      }
    }
  }

  lemma UrlsDistinctWithin(pages: seq<DocPage>)
    requires pages in {DocSections[0].items, DocSections[1].items, DocSections[2].items}
    ensures DistinctUrls(pages)
  {
    if pages == DocSections[0].items {
    } else if pages == DocSections[1].items {
    } else {
    }
  }

  lemma UrlsApart(front: seq<DocPage>, back: seq<DocPage>)
    requires (front, back) in {(DocSections[0].items, DocSections[1].items),
                               (DocSections[0].items, DocSections[2].items),
                               (DocSections[1].items, DocSections[2].items)}
    ensures forall k, m :: 0 <= k < |front| && 0 <= m < |back| ==> front[k].url != back[m].url
  {
    if (front, back) == (DocSections[0].items, DocSections[1].items) {
    } else if (front, back) == (DocSections[0].items, DocSections[2].items) {
    } else {
    }
  }

  /** With distinct URLs, "next" and "previous" undo each other. */
  lemma NextThenPrevious(pages: seq<DocPage>, url: string)
    requires DistinctUrls(pages)
    requires AdjacentIn(pages, url).nextPage.Some?
    ensures AdjacentIn(pages, AdjacentIn(pages, url).nextPage.value.url).previousPage == AdjacentIn(pages, url).currentPage
  {
    var i := FindIndex(pages, url);
    var next := pages[i + 1];
    assert FirstAt(pages, next.url, i + 1);
    AdjacentAt(pages, next.url, i + 1);
  }

  lemma PreviousThenNext(pages: seq<DocPage>, url: string)
    requires DistinctUrls(pages)
    requires AdjacentIn(pages, url).previousPage.Some?
    ensures AdjacentIn(pages, AdjacentIn(pages, url).previousPage.value.url).nextPage == AdjacentIn(pages, url).currentPage
  {
    var i := FindIndex(pages, url);
    var previous := pages[i - 1];
    assert FirstAt(pages, previous.url, i - 1);
    AdjacentAt(pages, previous.url, i - 1);
  }
}
