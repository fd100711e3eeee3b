/** The shop's product listing page: the filter state, the query parameters
    it is turned into, and the pagination bar's choice of page buttons and
    ellipses. */
module ProductsPage {
  import opened Common
  import opened Text

  // ---------------------------------------------------------------------
  // Pagination bar

  datatype Slot = Button(page: int, isCurrent: bool) | Ellipsis | Blank

  /** What the bar shows for page p: first, last, current and adjacent pages
      are buttons; two away from the current page an ellipsis; else nothing. */
  function SlotFor(p: int, pages: int, current: int): (s: Slot)
    ensures s.Button? <==> p == 1 || p == pages || current - 1 <= p <= current + 1
    ensures s.Button? ==> s.page == p && (s.isCurrent <==> p == current)
    ensures s == Ellipsis <==> !s.Button? && (p == current - 2 || p == current + 2)
  {
    if p == 1 || p == pages || (p >= current - 1 && p <= current + 1) then Button(p, p == current)
    else if p == current - 2 || p == current + 2 then Ellipsis
    else Blank
  }

  /** `[...Array(pages)].map((_, index) => ...)`: one slot per page 1 .. pages. */
  function Window(pages: nat, current: int): (w: seq<Slot>)
    ensures |w| == pages
    ensures forall i :: 0 <= i < pages ==> w[i] == SlotFor(i + 1, pages, current)
  {
    seq(pages, i requires 0 <= i < pages => SlotFor(i + 1, pages, current))
  }

  datatype Bar = Bar(prevDisabled: bool, slots: seq<Slot>, nextDisabled: bool)

  /** The bar renders only for more than one page; Prev is disabled on page 1
      and Next on the last page. */
  function PaginationBar(pages: int, current: int): (r: Option<Bar>)
    ensures r.Some? <==> pages > 1
    ensures r.Some? ==> r.value.prevDisabled == (current == 1) && r.value.nextDisabled == (current == pages)
                        && r.value.slots == Window(pages, current)
  {
    if pages > 1 then Some(Bar(current == 1, Window(pages, current), current == pages)) else None
  }

  function ButtonPages(w: seq<Slot>): set<int> {
    set i | 0 <= i < |w| && w[i].Button? :: w[i].page
  }

  /** The first and the last page are always buttons, and no more than five
      buttons are shown. */
  lemma WindowButtons(pages: nat, current: int)
    requires pages >= 1
    ensures Window(pages, current)[0] == Button(1, current == 1)
    ensures Window(pages, current)[pages - 1] == Button(pages, current == pages)
    ensures ButtonPages(Window(pages, current)) <= {1, pages, current - 1, current, current + 1}
    ensures |ButtonPages(Window(pages, current))| <= 5
  {
    var w := Window(pages, current);
    var allowed := {1, pages, current - 1, current, current + 1};
    assert ButtonPages(w) <= allowed;
    SubsetCard(ButtonPages(w), allowed);
    FiveCard(1, pages, current - 1, current, current + 1);
  }

  lemma SubsetCard(a: set<int>, b: set<int>)
    requires a <= b
    ensures |a| <= |b|
  {
    assert b == a + (b - a);
  }

  lemma FiveCard(a: int, b: int, c: int, d: int, e: int)
    ensures |{a, b, c, d, e}| <= 5
  {
    assert {a, b, c, d, e} == {a} + {b} + {c} + {d} + {e};
  }

  /** Each page slot's kind exactly as the page selects it. */
  lemma SlotKinds(pages: nat, current: int, p: int)
    requires 1 <= p <= pages
    ensures Window(pages, current)[p - 1].Button? <==> p == 1 || p == pages || current - 1 <= p <= current + 1
    ensures Window(pages, current)[p - 1] == Ellipsis <==>
              !(p == 1 || p == pages || current - 1 <= p <= current + 1) && (p == current - 2 || p == current + 2)
  {
  }

  // ---------------------------------------------------------------------
  // Filter state and query parameters

  /** The filter state, with the keys in the order the page declares them. */
  datatype Filters = Filters(
    category: string, brand: string, minPrice: string, maxPrice: string,
    search: string, sort: string, order: string, page: string)

  datatype Key = Category | Brand | MinPrice | MaxPrice | Search | Sort | Order | Page

  const Defaults := Filters("", "", "", "", "", "createdAt", "desc", "1")

  function Name(k: Key): string {
    match k
    case Category => "category" case Brand => "brand" case MinPrice => "minPrice"
    case MaxPrice => "maxPrice" case Search => "search" case Sort => "sort"
    case Order => "order" case Page => "page"
  }

  function Get(f: Filters, k: Key): string {
    match k
    case Category => f.category case Brand => f.brand case MinPrice => f.minPrice
    case MaxPrice => f.maxPrice case Search => f.search case Sort => f.sort
    case Order => f.order case Page => f.page
  }

  function Set(f: Filters, k: Key, v: string): (r: Filters)
    ensures Get(r, k) == v
    ensures forall j :: j != k ==> Get(r, j) == Get(f, j)
  {
    match k
    case Category => f.(category := v) case Brand => f.(brand := v) case MinPrice => f.(minPrice := v)
    case MaxPrice => f.(maxPrice := v) case Search => f.(search := v) case Sort => f.(sort := v)
    case Order => f.(order := v) case Page => f.(page := v)
  }

  /** `Object.keys(filters)` with their values, in declaration order. */
  function Entries(f: Filters): (e: seq<(string, string)>)
    ensures |e| == 8
  {
    [("category", f.category), ("brand", f.brand), ("minPrice", f.minPrice), ("maxPrice", f.maxPrice),
     ("search", f.search), ("sort", f.sort), ("order", f.order), ("page", f.page)]
  }

  /** Each filter's entry sits at a fixed position. */
  function Index(k: Key): (i: nat)
    ensures i < 8
  {
    match k
    case Category => 0 case Brand => 1 case MinPrice => 2 case MaxPrice => 3
    case Search => 4 case Sort => 5 case Order => 6 case Page => 7
  }

  lemma EntryAt(f: Filters, k: Key)
    ensures Entries(f)[Index(k)] == (Name(k), Get(f, k))
  {
  }

  /** An entry is named after exactly one filter and carries its value. */
  lemma EntryNamed(f: Filters, x: (string, string))
    requires x in Entries(f)
    ensures exists k :: x == (Name(k), Get(f, k))
    ensures forall k :: x.0 == Name(k) ==> x.1 == Get(f, k)
  {
    var i :| 0 <= i < 8 && Entries(f)[i] == x;
    var k := [Category, Brand, MinPrice, MaxPrice, Search, Sort, Order, Page][i];
    assert x == (Name(k), Get(f, k));
  }

  /** The entries with a non-empty value, in their original order. */
  function NonEmpty(e: seq<(string, string)>): (r: seq<(string, string)>)
    ensures |r| <= |e|
    ensures forall x :: x in r <==> x in e && x.1 != ""
  {
    if e == [] then []
    else
      assert e == e[..|e| - 1] + [e[|e| - 1]];
      NonEmpty(e[..|e| - 1]) + (if e[|e| - 1].1 != "" then [e[|e| - 1]] else [])
  }

  /** The `forEach` that copies every truthy entry into `params`. */
  method BuildParams(f: Filters) returns (params: seq<(string, string)>)
    ensures params == NonEmpty(Entries(f))
  {
    var e := Entries(f);
    params := [];
    for i := 0 to |e|
      invariant params == NonEmpty(e[..i])
    {
      assert e[..i + 1][..i] == e[..i];
      if e[i].1 != "" {
        params := params + [e[i]];
      }
    }
    assert e[..|e|] == e;
  }

  /** The query names exactly the filters that are set, each with its value,
      and never a key outside the eight filters. */
  lemma ParamsExact(f: Filters)
    ensures forall k :: (Name(k), Get(f, k)) in NonEmpty(Entries(f)) <==> Get(f, k) != ""
    ensures forall x :: x in NonEmpty(Entries(f)) ==> x.1 != "" && exists k :: x == (Name(k), Get(f, k))
  {
    forall k
      ensures (Name(k), Get(f, k)) in Entries(f)
    {
      EntryAt(f, k);
    }
    forall x | x in NonEmpty(Entries(f))
      ensures exists k :: x == (Name(k), Get(f, k))
    {
      EntryNamed(f, x);
    }
  }

  /** `page.toString()`. */
  function IntToString(n: int): string {
    if n < 0 then "-" + NatToDecimal(-n) else NatToDecimal(n)
  }

  /** The page's state: the filter form and the URL's search parameters the
      listing is fetched with. */
  class ProductsPage {
    var filters: Filters
    var searchParams: seq<(string, string)>
    var showFilters: bool

    constructor ()
      ensures filters == Defaults && searchParams == [] && !showFilters
    {
      filters := Defaults;
      searchParams := [];
      showFilters := false;
    }

    /** `handleFilterChange`: sets one filter and resets the page to '1'. */
    method HandleFilterChange(k: Key, value: string)
      modifies this
      ensures filters == Set(Set(old(filters), k, value), Page, "1")
      ensures searchParams == old(searchParams) && showFilters == old(showFilters)
    {
      filters := Set(Set(filters, k, value), Page, "1");
    }

    /** `applyFilters`: the URL takes the non-empty filters; the panel closes. */
    method ApplyFilters()
      modifies this
      ensures searchParams == NonEmpty(Entries(filters)) && !showFilters
      ensures filters == old(filters)
    {
      searchParams := BuildParams(filters);
      showFilters := false;
    }

    /** `clearFilters`: every filter back to its default and an empty URL. */
    method ClearFilters()
      modifies this
      ensures filters == Defaults && searchParams == []
      ensures showFilters == old(showFilters)
    {
      filters := Defaults;
      searchParams := [];
    }

    /** `handlePageChange`: the page filter takes the new number and the URL
        every non-empty filter. */
    method HandlePageChange(page: int)
      modifies this
      ensures filters == Set(old(filters), Page, IntToString(page))
      ensures searchParams == NonEmpty(Entries(filters))
      ensures showFilters == old(showFilters)
    {
      filters := Set(filters, Page, IntToString(page));
      searchParams := BuildParams(filters);
    }

    /** The close button of an active-filter chip as written:
        `handleFilterChange(key, ''); applyFilters();` in one handler. The
        state update is deferred to the next render, so `applyFilters` still
        reads the filters from before the click. */
    method RemoveChipAsWritten(k: Key)
      modifies this
      ensures searchParams == NonEmpty(Entries(old(filters)))
      ensures filters == Set(Set(old(filters), k, ""), Page, "1")
      ensures !showFilters
    {
      var before := filters;
      filters := Set(Set(filters, k, ""), Page, "1");
      searchParams := BuildParams(before);
      showFilters := false;
    }

    /** The chip's close button applying the cleared filter, as intended. */
    method RemoveChip(k: Key)
      modifies this
      ensures filters == Set(Set(old(filters), k, ""), Page, "1")
      ensures searchParams == NonEmpty(Entries(filters))
      ensures !showFilters
    {
      filters := Set(Set(filters, k, ""), Page, "1");
      searchParams := BuildParams(filters);
      showFilters := false;
    }
  }

  /** After a filter change the page is '1' and the changed filter holds the
      new value (unless the key was the page itself); nothing else moves. */
  lemma FilterChangeResetsPage(f: Filters, k: Key, value: string)
    ensures Get(Set(Set(f, k, value), Page, "1"), Page) == "1"
    ensures k != Page ==> Get(Set(Set(f, k, value), Page, "1"), k) == value
    ensures forall j :: j != k && j != Page ==> Get(Set(Set(f, k, value), Page, "1"), j) == Get(f, j)
  {
  }

  /** As written, removing the search chip while a search is applied leaves
      the search in the URL, so the listing stays filtered while the chip
      disappears. */
  lemma RemoveChipAsWrittenKeepsFilter(f: Filters)
    requires f.search != ""
    ensures ("search", f.search) in NonEmpty(Entries(f))
    ensures Get(Set(Set(f, Search, ""), Page, "1"), Search) == ""
  {
    assert Entries(f)[4] == ("search", f.search);
  }

  /** With the fix the removed filter is gone from the URL and every other
      non-empty filter is still there. */
  lemma RemoveChipDropsFilter(f: Filters, k: Key)
    ensures var g := Set(Set(f, k, ""), Page, "1");
      (k != Page ==> forall v :: (Name(k), v) !in NonEmpty(Entries(g)))
      && (forall j :: j != k && j != Page && Get(f, j) != "" ==> (Name(j), Get(f, j)) in NonEmpty(Entries(g)))
  {
    var g := Set(Set(f, k, ""), Page, "1");
    ParamsExact(g);
    if k != Page {
      forall v | (Name(k), v) in NonEmpty(Entries(g))
        ensures false
      {
        EntryNamed(g, (Name(k), v));
      }
    }
  }
}
