/**
 * The catalog filter of frontend/src/pages/CategoryPage.jsx: given the
 * fetched categories and products, the route's category parameter and the
 * page's criteria (query, price range, sort mode, current page), derive the
 * visible products.
 *
 * Category references are polymorphic in the API (absent, string, number or
 * an embedded object), so they are a tagged union here.  Filtering is a pure
 * function; sorting rearranges the filtered array in place (`list.sort`);
 * the criteria and the current page are the state of `CategoryView`, which
 * the handlers and the page-clamping effect overwrite.
 */
module Catalog {
  import opened Common
  import StableSort

  /** A scalar JSON value as the API may send it for an id, a name or a slug. */
  datatype Scalar = Str(s: string) | Num(n: int)

  /** `String(v)` */
  function ScalarString(v: Scalar): string
  {
    match v
    case Str(s) => s
    case Num(n) => IntToString(n)
  }

  /** `String(v ?? '')` */
  function StringOrEmpty(v: Option<Scalar>): string
  {
    match v
    case None => ""
    case Some(x) => ScalarString(x)
  }

  /** A product's `category` field. */
  datatype CategoryRef =
    | NoCategory
    | CategoryString(s: string)
    | CategoryNumber(n: int)
    | CategoryObject(id: Option<Scalar>, pk: Option<Scalar>, name: Option<Scalar>,
                     title: Option<Scalar>, slug: Option<Scalar>)

  /** An entry of the category list. */
  datatype Category = Category(id: Option<Scalar>, name: Option<string>, slug: Option<string>)

  /** A product of the catalog snapshot; every field may be missing. */
  datatype Product = Product(id: Option<int>, name: Option<string>, description: Option<string>,
                             price: Option<int>, category: CategoryRef)

  // ------------------------------------------------------ active category

  /** `slugFromUrl`: the decoded route parameter, or '' when there is none (`decoded` is decodeURIComponent's result). */
  function SlugFromUrl(rawParam: string, decoded: string): (slug: string)
    ensures rawParam == "" ==> slug == ""
    ensures rawParam != "" ==> slug == decoded
  {
    if rawParam == "" then "" else decoded
  }

  /** The test inside `categories.find`: slug, name or id equals the raw parameter, all lower-cased. */
  predicate CategoryIs(c: Category, rawParam: string)
  {
    var param := Lower(rawParam);
    Lower(c.slug.GetOr("")) == param || Lower(c.name.GetOr("")) == param || Lower(StringOrEmpty(c.id)) == param
  }

  function FindCategory(categories: seq<Category>, rawParam: string): (r: Option<Category>)
    ensures r.Some? ==> exists i | 0 <= i < |categories| ::
      categories[i] == r.value && CategoryIs(r.value, rawParam)
      && forall k :: 0 <= k < i ==> !CategoryIs(categories[k], rawParam)
    ensures r.None? ==> forall i :: 0 <= i < |categories| ==> !CategoryIs(categories[i], rawParam)
  {
    if categories == [] then None
    else if CategoryIs(categories[0], rawParam) then Some(categories[0])
    else
      var r := FindCategory(categories[1..], rawParam);
      assert r.Some? ==> exists i | 0 <= i < |categories| ::
        categories[i] == r.value && CategoryIs(r.value, rawParam)
        && forall k :: 0 <= k < i ==> !CategoryIs(categories[k], rawParam) by {
        if r.Some? {
          var i :| 0 <= i < |categories[1..]| && categories[1..][i] == r.value && CategoryIs(r.value, rawParam)
            && forall k :: 0 <= k < i ==> !CategoryIs(categories[1..][k], rawParam);
          assert categories[i + 1] == r.value;
          forall k | 0 <= k < i + 1 ensures !CategoryIs(categories[k], rawParam) {
            if k > 0 { assert categories[k] == categories[1..][k - 1]; }
          }
        }
      }
      assert r.None? ==> forall i :: 0 <= i < |categories| ==> !CategoryIs(categories[i], rawParam) by {
        if r.None? {
          forall i | 0 < i < |categories| ensures !CategoryIs(categories[i], rawParam) {
            assert categories[i] == categories[1..][i - 1];
          }
        }
      }
      r
  }

  /** `activeCategoryObj`: none without a route parameter, else the first category it names. */
  function ActiveCategory(categories: seq<Category>, rawParam: string, slugFromUrl: string): Option<Category>
  {
    if slugFromUrl == "" then None else FindCategory(categories, rawParam)
  }

  /** `activeIdentifier`: the active category's slug, else its name, else `String(id)`; without one, the URL slug. */
  function ActiveIdentifier(active: Option<Category>, slugFromUrl: string): (ident: string)
    ensures active.None? ==> ident == slugFromUrl
    ensures active.Some? && active.value.slug.Some? ==> ident == active.value.slug.value
    ensures active.Some? && active.value.slug.None? && active.value.name.Some? ==> ident == active.value.name.value
    ensures active.Some? && active.value.slug.None? && active.value.name.None? ==>
      ident == (if active.value.id.Some? then ScalarString(active.value.id.value) else "undefined")
  {
    match active
    case None => slugFromUrl
    case Some(c) =>
      if c.slug.Some? then c.slug.value
      else if c.name.Some? then c.name.value
      else if c.id.Some? then ScalarString(c.id.value)
      else "undefined"
  }

  // ------------------------------------------------------ category match

  /** The string/number branch: equal, or either contains the other. */
  predicate ScalarMatches(v: string, idNorm: string)
  {
    v == idNorm || Contains(v, idNorm) || Contains(idNorm, v)
  }

  /** `productMatchesCategory(prod, identifier)` */
  predicate ProductMatchesCategory(prod: Product, identifier: string)
  {
    if identifier == "" then true
    else
      var idNorm := Lower(identifier);
      match prod.category
      case NoCategory => false
      case CategoryString(s) => ScalarMatches(Lower(s), idNorm)
      case CategoryNumber(n) => ScalarMatches(Lower(IntToString(n)), idNorm)
      case CategoryObject(id, pk, name, title, slug) =>
        var pid := Lower(StringOrEmpty(OrElse(id, pk)));
        var pname := Lower(StringOrEmpty(OrElse(name, title)));
        var pslug := Lower(StringOrEmpty(slug));
        || (pid != "" && pid == idNorm)
        || (pname != "" && pname == idNorm)
        || (pslug != "" && pslug == idNorm)
        || (pname != "" && Contains(pname, idNorm))
        || (pslug != "" && Contains(pslug, idNorm))
  }

  /** An empty identifier matches every product. */
  lemma EmptyIdentifierMatchesAll(prod: Product)
    ensures ProductMatchesCategory(prod, "")
  {
  }

  /** A product without a category matches no non-empty identifier. */
  lemma NoCategoryMatchesNothing(prod: Product, identifier: string)
    requires prod.category == NoCategory && identifier != ""
    ensures !ProductMatchesCategory(prod, identifier)
  {
  }

  /** A string or number category matches iff, lower-cased, either value contains the other. */
  lemma ScalarCategoryMatch(prod: Product, identifier: string)
    requires identifier != ""
    requires prod.category.CategoryString? || prod.category.CategoryNumber?
    ensures var v := Lower(if prod.category.CategoryString? then prod.category.s else IntToString(prod.category.n));
      var idNorm := Lower(identifier);
      ProductMatchesCategory(prod, identifier) <==> Contains(v, idNorm) || Contains(idNorm, v)
  {
    var v := Lower(if prod.category.CategoryString? then prod.category.s else IntToString(prod.category.n));
    ContainsSelf(v);
  }

  /** A consequence of the two-way containment: a category that is the empty string matches every identifier. */
  lemma EmptyStringCategoryMatchesAll(prod: Product, identifier: string)
    requires prod.category == CategoryString("")
    ensures ProductMatchesCategory(prod, identifier)
  {
    if identifier != "" {
      ContainsEmpty(Lower(identifier));
    }
  }

  /**
   * An object category matches iff its id (or pk) equals the identifier, or
   * its name (or title) or slug contains it, all lower-cased; containment
   * runs one way only and never applies to the id.
   */
  lemma ObjectCategoryMatch(prod: Product, identifier: string)
    requires identifier != "" && prod.category.CategoryObject?
    ensures var c := prod.category;
      var idNorm := Lower(identifier);
      var pid := Lower(StringOrEmpty(OrElse(c.id, c.pk)));
      var pname := Lower(StringOrEmpty(OrElse(c.name, c.title)));
      var pslug := Lower(StringOrEmpty(c.slug));
      ProductMatchesCategory(prod, identifier) <==> pid == idNorm || Contains(pname, idNorm) || Contains(pslug, idNorm)
  {
    var c := prod.category;
    var idNorm := Lower(identifier);
    var pname := Lower(StringOrEmpty(OrElse(c.name, c.title)));
    var pslug := Lower(StringOrEmpty(c.slug));
    assert |idNorm| > 0;
    ContainsSelf(pname);
    ContainsSelf(pslug);
    if Contains(pname, idNorm) { ContainsShorter(pname, idNorm); }
    if Contains(pslug, idNorm) { ContainsShorter(pslug, idNorm); }
  }

  /** The contrast: numeric category 12 matches "1" by containment, an object with id 12 does not. */
  lemma IdIsNeverMatchedByContainment()
    ensures ProductMatchesCategory(Product(None, None, None, None, CategoryNumber(12)), "1")
    ensures !ProductMatchesCategory(Product(None, None, None, None, CategoryObject(Some(Num(12)), None, None, None, None)), "1")
  {
    assert IntToString(12) == "12";
    assert Lower("12") == "12";
    assert Lower("1") == "1";
    assert OccursAt("12", "1", 0);
  }

  // ------------------------------------------------------------ filtering

  /** Price bounds; each is applied only when set (the empty input means unset). */
  datatype PriceRange = PriceRange(min: Option<int>, max: Option<int>)

  const NoRange := PriceRange(None, None)

  /** `Number(product.price ?? 0)` in the filter and `Number(a.price) || 0` in the sort: with prices modelled as integers, both read a missing price as 0. */
  function PriceOf(p: Product): int
  {
    p.price.GetOr(0)
  }

  predicate InRange(price: int, range: PriceRange)
  {
    (range.min.None? || range.min.value <= price) && (range.max.None? || price <= range.max.value)
  }

  /** `(query || '').trim().toLowerCase()` */
  function NormalizedQuery(query: string): string
  {
    Lower(Trim(query))
  }

  predicate MatchesQuery(p: Product, q: string)
  {
    q == "" || Contains(Lower(p.name.GetOr("")), q) || Contains(Lower(p.description.GetOr("")), q)
  }

  /** The filter callback: category AND query AND price range. */
  predicate Passes(p: Product, identifier: string, q: string, range: PriceRange)
  {
    (identifier == "" || ProductMatchesCategory(p, identifier)) && MatchesQuery(p, q) && InRange(PriceOf(p), range)
  }

  /** `products.filter(...)` */
  function Kept(products: seq<Product>, identifier: string, q: string, range: PriceRange): seq<Product>
  {
    if products == [] then []
    else
      (if Passes(products[0], identifier, q, range) then [products[0]] else [])
      + Kept(products[1..], identifier, q, range)
  }

  /** The filter keeps exactly the passing products, each as often as in the input. */
  lemma {:induction false} KeptSpec(products: seq<Product>, identifier: string, q: string, range: PriceRange)
    ensures var r := Kept(products, identifier, q, range);
      && |r| <= |products|
      && (forall i :: 0 <= i < |r| ==> Passes(r[i], identifier, q, range))
      && (forall p :: Passes(p, identifier, q, range) ==> multiset(r)[p] == multiset(products)[p])
      && (forall p :: !Passes(p, identifier, q, range) ==> multiset(r)[p] == 0)
  {
    if products != [] {
      KeptSpec(products[1..], identifier, q, range);
      assert products == [products[0]] + products[1..];
    }
  }

  /** The filter keeps input order: it distributes over concatenation. */
  lemma {:induction false} KeptAppend(a: seq<Product>, b: seq<Product>, identifier: string, q: string, range: PriceRange)
    ensures Kept(a + b, identifier, q, range) == Kept(a, identifier, q, range) + Kept(b, identifier, q, range)
  {
    if a == [] {
      assert a + b == b;
    } else {
      assert (a + b)[0] == a[0];
      assert (a + b)[1..] == a[1..] + b;
      KeptAppend(a[1..], b, identifier, q, range);
    }
  }

  /** A product is visible iff it is in the input and passes the three tests independently. */
  lemma KeptIff(products: seq<Product>, identifier: string, q: string, range: PriceRange, p: Product)
    ensures p in Kept(products, identifier, q, range) <==>
      && p in products
      && (identifier == "" || ProductMatchesCategory(p, identifier))
      && (q == "" || Contains(Lower(p.name.GetOr("")), q) || Contains(Lower(p.description.GetOr("")), q))
      && (range.min.None? || range.min.value <= PriceOf(p))
      && (range.max.None? || PriceOf(p) <= range.max.value)
  {
    KeptSpec(products, identifier, q, range);
    var r := Kept(products, identifier, q, range);
    assert p in r <==> multiset(r)[p] > 0;
    assert p in products <==> multiset(products)[p] > 0;
  }

  // -------------------------------------------------------------- sorting

  datatype SortMode = Relevance | PriceLow | PriceHigh | NameAsc | Newest

  /** The `switch (sortBy)`: any unknown value leaves the order unchanged. */
  function SortModeOf(sortBy: string): SortMode
  {
    if sortBy == "price-low" then PriceLow
    else if sortBy == "price-high" then PriceHigh
    else if sortBy == "name" then NameAsc
    else if sortBy == "newest" then Newest
    else Relevance
  }

  /** `a.id || 0` */
  function IdKey(p: Product): int
  {
    p.id.GetOr(0)
  }

  /** `String(a.name) || ''`: a missing name sorts as the text "undefined". */
  function NameKey(p: Product): string
  {
    match p.name
    case None => "undefined"
    case Some(s) => s
  }

  predicate PriceLowLe(a: Product, b: Product) { PriceOf(a) <= PriceOf(b) }
  predicate PriceHighLe(a: Product, b: Product) { PriceOf(b) <= PriceOf(a) }
  predicate NameLe(a: Product, b: Product) { LexLe(NameKey(a), NameKey(b)) }
  predicate NewestLe(a: Product, b: Product) { IdKey(b) <= IdKey(a) }

  /** The comparator of each sorting mode, as "may come first". */
  function Comparator(mode: SortMode): (Product, Product) -> bool
  {
    match mode
    case PriceLow => PriceLowLe
    case PriceHigh => PriceHighLe
    case NameAsc => NameLe
    case Newest => NewestLe
    case Relevance => (a: Product, b: Product) => true
  }

  lemma ComparatorIsPreorder(mode: SortMode)
    ensures StableSort.Total(Comparator(mode)) && StableSort.Transitive(Comparator(mode))
  {
    if mode == NameAsc {
      forall a: Product, b: Product ensures NameLe(a, b) || NameLe(b, a) {
        LexLeTotal(NameKey(a), NameKey(b));
      }
      forall a: Product, b: Product, c: Product | NameLe(a, b) && NameLe(b, c) ensures NameLe(a, c) {
        LexLeTransitive(NameKey(a), NameKey(b), NameKey(c));
      }
    }
  }

  /** The list after the `switch`: unchanged for relevance, otherwise the stable sort by the mode's comparator. */
  function SortedProducts(list: seq<Product>, mode: SortMode): seq<Product>
  {
    if mode == Relevance then list else StableSort.Sort(list, Comparator(mode))
  }

  /** Each mode orders by its key, and the result is always a permutation of the filtered list. */
  lemma SortedProductsSpec(list: seq<Product>, mode: SortMode)
    ensures var r := SortedProducts(list, mode);
      && multiset(r) == multiset(list) && |r| == |list|
      && (mode == Relevance ==> r == list)
      && (mode == PriceLow ==> forall i, j :: 0 <= i < j < |r| ==> PriceOf(r[i]) <= PriceOf(r[j]))
      && (mode == PriceHigh ==> forall i, j :: 0 <= i < j < |r| ==> PriceOf(r[i]) >= PriceOf(r[j]))
      && (mode == Newest ==> forall i, j :: 0 <= i < j < |r| ==> IdKey(r[i]) >= IdKey(r[j]))
      && (mode == NameAsc ==> forall i, j :: 0 <= i < j < |r| ==> LexLe(NameKey(r[i]), NameKey(r[j])))
  {
    if mode != Relevance {
      var le := Comparator(mode);
      ComparatorIsPreorder(mode);
      StableSort.SortSortedPermutation(list, le);
      var r := StableSort.Sort(list, le);
      forall i, j | 0 <= i < j < |r|
        ensures le(r[i], r[j])
      {
        StableSort.SortedPairwise(r, le, i, j);
      }
    }
  }

  /** Products that compare equal under the mode keep their filtered order (the sort is stable). */
  lemma SortedProductsStable(list: seq<Product>, mode: SortMode, y: Product)
    ensures StableSort.TiedWith(SortedProducts(list, mode), Comparator(mode), y)
         == StableSort.TiedWith(list, Comparator(mode), y)
  {
    ComparatorIsPreorder(mode);
    if mode != Relevance {
      StableSort.SortStable(list, Comparator(mode), y);
    }
  }

  /** `list.sort(...)` on the filtered array. */
  method SortProducts(a: array<Product>, sortBy: string)
    modifies a
    ensures a[..] == SortedProducts(old(a[..]), SortModeOf(sortBy))
  {
    var mode := SortModeOf(sortBy);
    if mode != Relevance {
      StableSort.SortInPlace(a, Comparator(mode));
    }
  }

  /** `filteredProducts`: filter by the active identifier, query and range, then sort. */
  method FilteredProducts(products: seq<Product>, identifier: string, query: string,
                          range: PriceRange, sortBy: string)
    returns (list: seq<Product>)
    ensures list == SortedProducts(Kept(products, identifier, NormalizedQuery(query), range), SortModeOf(sortBy))
  {
    var kept := Kept(products, identifier, NormalizedQuery(query), range);
    list := SortedCopy(kept, sortBy);
  }

  /** `list.sort(...)` applied to a fresh array holding the given products. */
  method SortedCopy(kept: seq<Product>, sortBy: string) returns (list: seq<Product>)
    ensures list == SortedProducts(kept, SortModeOf(sortBy))
  {
    var a := new Product[|kept|](i requires 0 <= i < |kept| => kept[i]);
    assert a[..] == kept;
    SortProducts(a, sortBy);
    list := a[..];
  }

  /** Whatever the sort mode, the visible list holds exactly the passing products. */
  lemma VisibleAreThePassing(products: seq<Product>, identifier: string, q: string,
                             range: PriceRange, mode: SortMode)
    ensures var list := SortedProducts(Kept(products, identifier, q, range), mode);
      && (forall i :: 0 <= i < |list| ==> Passes(list[i], identifier, q, range))
      && (forall p :: Passes(p, identifier, q, range) ==> multiset(list)[p] == multiset(products)[p])
      && (forall p :: !Passes(p, identifier, q, range) ==> p !in list)
  {
    var kept := Kept(products, identifier, q, range);
    var list := SortedProducts(kept, mode);
    SortedProductsSpec(kept, mode);
    KeptSpec(products, identifier, q, range);
    forall i | 0 <= i < |list|
      ensures Passes(list[i], identifier, q, range)
    {
      assert list[i] in multiset(kept);
    }
    forall p | !Passes(p, identifier, q, range)
      ensures p !in list
    {
      assert multiset(list)[p] == 0;
    }
  }

  // ----------------------------------------------------------- pagination

  const ItemsPerPage: nat := 12

  /** `Math.max(1, Math.ceil(n / 12))`: the fewest pages (at least one) that hold n products. */
  function TotalPages(n: nat): (t: nat)
    ensures t >= 1
    ensures n <= t * ItemsPerPage
    ensures t == 1 || (t - 1) * ItemsPerPage < n
  {
    if n == 0 then 1 else (n + ItemsPerPage - 1) / ItemsPerPage
  }

  /** The clamp effect: a page past the last becomes the last. */
  function ClampPage(page: int, totalPages: nat): (p: int)
    ensures p <= totalPages || p == page
    ensures page <= totalPages ==> p == page
    ensures page > totalPages ==> p == totalPages
  {
    if page > totalPages then totalPages else page
  }

  /** A page number of at least 1, once clamped, lies in [1, TotalPages]. */
  lemma ClampedPageInRange(page: int, n: nat)
    requires page >= 1
    ensures 1 <= ClampPage(page, TotalPages(n)) <= TotalPages(n)
  {
  }

  /** How `Array.prototype.slice` reads an index: negative counts from the end, then clamp to [0, len]. */
  function SliceIndex(i: int, len: nat): (k: nat)
    ensures k <= len
    ensures 0 <= i <= len ==> k == i
    ensures i < 0 && 0 <= len + i ==> k == len + i
    ensures len + i < 0 ==> k == 0
    ensures i > len ==> k == len
  {
    if i < 0 then (if len + i < 0 then 0 else len + i) else if i > len then len else i
  }

  /** `s.slice(start, end)` */
  function JsSlice<T>(s: seq<T>, start: int, end: int): seq<T>
  {
    var b := SliceIndex(start, |s|);
    var e := SliceIndex(end, |s|);
    if b < e then s[b..e] else []
  }

  /** `paginatedProducts` for the current page. */
  function Page<T>(list: seq<T>, currentPage: int): seq<T>
  {
    var start := (currentPage - 1) * ItemsPerPage;
    JsSlice(list, start, start + ItemsPerPage)
  }

  /** Page p >= 1 holds elements [(p-1)*12, p*12) of the list, at most 12 of them. */
  lemma PageContents<T>(list: seq<T>, p: int)
    requires p >= 1
    ensures var n := |list|;
      var start := (p - 1) * ItemsPerPage;
      && Page(list, p) == list[Min(start, n)..Min(start + ItemsPerPage, n)]
      && |Page(list, p)| <= ItemsPerPage
  {
  }

  /** A page past the last, as the render before the clamp effect sees it, shows nothing. */
  lemma PastLastPageIsEmpty<T>(list: seq<T>, p: int)
    requires p > TotalPages(|list|)
    ensures Page(list, p) == []
  {
    var t := TotalPages(|list|);
    assert |list| <= t * ItemsPerPage <= (p - 1) * ItemsPerPage;
  }

  /** On a clamped page the slice is empty only when the filtered list is. */
  lemma PageEmptyOnlyWhenListEmpty<T>(list: seq<T>, p: int)
    requires 1 <= p <= TotalPages(|list|)
    ensures Page(list, p) == [] <==> list == []
  {
    PageContents(list, p);
    if list != [] {
      assert (p - 1) * ItemsPerPage < |list|;
    }
  }

  /** Every element of the list is on exactly the page its index says, at that offset. */
  lemma PagesCoverList<T>(list: seq<T>, k: nat)
    requires k < |list|
    ensures var p := k / ItemsPerPage + 1;
      && 1 <= p <= TotalPages(|list|)
      && k % ItemsPerPage < |Page(list, p)|
      && Page(list, p)[k % ItemsPerPage] == list[k]
  {
    var p := k / ItemsPerPage + 1;
    PageContents(list, p);
    assert (p - 1) * ItemsPerPage == k - k % ItemsPerPage;
    var t := TotalPages(|list|);
    assert (p - 1) * ItemsPerPage < t * ItemsPerPage;
  }

  /** The list the page derives from its inputs and criteria, before pagination. */
  function Visible(products: seq<Product>, categories: seq<Category>, rawParam: string, decoded: string,
                   query: string, range: PriceRange, sortBy: string): seq<Product>
  {
    var slug := SlugFromUrl(rawParam, decoded);
    var identifier := ActiveIdentifier(ActiveCategory(categories, rawParam, slug), slug);
    SortedProducts(Kept(products, identifier, NormalizedQuery(query), range), SortModeOf(sortBy))
  }

  /** After clamping a page number of at least 1, the shown slice is at most 12 long and empty only when nothing is visible. */
  lemma ClampedPageShowsSomething<T>(list: seq<T>, page: int)
    requires page >= 1
    ensures var p := ClampPage(page, TotalPages(|list|));
      |Page(list, p)| <= ItemsPerPage && (Page(list, p) == [] <==> list == [])
  {
    var p := ClampPage(page, TotalPages(|list|));
    ClampedPageInRange(page, |list|);
    PageContents(list, p);
    PageEmptyOnlyWhenListEmpty(list, p);
  }

  // ------------------------------------------------------------ page state

  /** The page's filter state and its handlers. */
  class CategoryView {
    var query: string
    var priceRange: PriceRange
    var sortBy: string
    var currentPage: int

    constructor ()
      ensures query == "" && priceRange == NoRange && sortBy == "relevance" && currentPage == 1
    {
      query, priceRange, sortBy, currentPage := "", NoRange, "relevance", 1;
    }

    /** `handlePriceRangeChange`: a missing range means no bounds; back to page 1. */
    method HandlePriceRangeChange(r: Option<PriceRange>)
      modifies this
      ensures priceRange == r.GetOr(NoRange) && currentPage == 1
      ensures query == old(query) && sortBy == old(sortBy)
    {
      priceRange := r.GetOr(NoRange);
      currentPage := 1;
    }

    method HandleSortChange(s: string)
      modifies this
      ensures sortBy == s && currentPage == 1
      ensures query == old(query) && priceRange == old(priceRange)
    {
      sortBy := s;
      currentPage := 1;
    }

    method HandleQueryChange(q: string)
      modifies this
      ensures query == q && currentPage == 1
      ensures priceRange == old(priceRange) && sortBy == old(sortBy)
    {
      query := q;
      currentPage := 1;
    }

    /** `handleClearFilters`: every criterion back to its initial value. */
    method HandleClearFilters()
      modifies this
      ensures query == "" && priceRange == NoRange && sortBy == "relevance" && currentPage == 1
    {
      query := "";
      priceRange := NoRange;
      sortBy := "relevance";
      currentPage := 1;
    }

    /** The pagination control's `onPageChange`. */
    method SetPage(p: int)
      modifies this
      ensures currentPage == p
      ensures query == old(query) && priceRange == old(priceRange) && sortBy == old(sortBy)
    {
      currentPage := p;
    }

    /** The effect `if (currentPage > totalPages) setCurrentPage(totalPages)`. */
    method ClampPageEffect(totalPages: nat)
      modifies this
      ensures currentPage == ClampPage(old(currentPage), totalPages)
      ensures query == old(query) && priceRange == old(priceRange) && sortBy == old(sortBy)
    {
      if currentPage > totalPages {
        currentPage := totalPages;
      }
    }

    /**
     * A render, the clamp effect it triggers, and the re-render that effect
     * causes.  The render computes the filtered list and the page count and
     * slices with the page as it stands (`firstShown`); the effect then
     * clamps the page, and the re-render slices again (`shown`).  The
     * criteria are the same in both renders, so the list is computed once.
     */
    method Render(products: seq<Product>, categories: seq<Category>, rawParam: string, decoded: string)
      returns (filtered: seq<Product>, totalPages: nat, firstShown: seq<Product>, shown: seq<Product>)
      modifies this
      ensures filtered == Visible(products, categories, rawParam, decoded, query, priceRange, sortBy)
      ensures totalPages == TotalPages(|filtered|)
      ensures firstShown == Page(filtered, old(currentPage))
      ensures currentPage == ClampPage(old(currentPage), totalPages)
      ensures shown == Page(filtered, currentPage)
      ensures query == old(query) && priceRange == old(priceRange) && sortBy == old(sortBy)
    {
      var slug := SlugFromUrl(rawParam, decoded);
      var identifier := ActiveIdentifier(ActiveCategory(categories, rawParam, slug), slug);
      filtered := FilteredProducts(products, identifier, query, priceRange, sortBy);
      totalPages := TotalPages(|filtered|);
      firstShown := Page(filtered, currentPage);
      ClampPageEffect(totalPages);
      shown := Page(filtered, currentPage);
    }
  }
}
