/**
 * The catalog page (pages/Shop.tsx): its fetched state and category filter,
 * the product badge and the sale-price display rule, and the language toggle.
 */
module Shop {
  import opened Wrappers
  import opened Api
  import ImageUrl

  const LoadFailedMessage: string := "Failed to load products."

  // ---------------------------------------------------------------------
  // Category filter

  /** `products.filter(p => p.category.id === id)` */
  function FilterByCategory(products: seq<Product>, id: string): (r: seq<Product>)
    ensures |r| <= |products|
    ensures forall p :: p in r <==> p in products && p.category.id == id
    decreases |products|
  {
    if products == [] then []
    else
      var rest := FilterByCategory(products[1..], id);
      assert forall p :: p in products <==> p == products[0] || p in products[1..];
      if products[0].category.id == id then [products[0]] + rest else rest
  }

  /** Filtering distributes over concatenation, so the order of the products
      is kept */
  lemma {:induction false} FilterByCategoryAppend(a: seq<Product>, b: seq<Product>, id: string)
    ensures FilterByCategory(a + b, id) == FilterByCategory(a, id) + FilterByCategory(b, id)
    decreases |a|
  {
    if a == [] {
      assert a + b == b;
    } else {
      assert (a + b)[1..] == a[1..] + b;
      FilterByCategoryAppend(a[1..], b, id);
    }
  }

  /** Each product is kept as many times as it occurs, if its category matches */
  lemma {:induction false} FilterByCategoryCount(products: seq<Product>, id: string, p: Product)
    ensures multiset(FilterByCategory(products, id))[p] ==
      if p.category.id == id then multiset(products)[p] else 0
    decreases |products|
  {
    if products != [] {
      FilterByCategoryCount(products[1..], id, p);
      assert products == [products[0]] + products[1..];
    }
  }

  /** `xs` is an order-preserving subsequence of `ys` */
  ghost predicate IsSubsequence(xs: seq<Product>, ys: seq<Product>)
    decreases |ys|
  {
    if xs == [] then true
    else if ys == [] then false
    else if xs[0] == ys[0] then IsSubsequence(xs[1..], ys[1..])
    else IsSubsequence(xs, ys[1..])
  }

  lemma {:induction false} FilterByCategoryIsSubsequence(products: seq<Product>, id: string)
    ensures IsSubsequence(FilterByCategory(products, id), products)
    decreases |products|
  {
    if products != [] {
      FilterByCategoryIsSubsequence(products[1..], id);
      var rest := FilterByCategory(products[1..], id);
      if products[0].category.id != id {
        SubsequenceSkip(rest, products);
      }
    }
  }

  lemma {:induction false} SubsequenceSkip(xs: seq<Product>, ys: seq<Product>)
    requires ys != [] && IsSubsequence(xs, ys[1..])
    ensures IsSubsequence(xs, ys)
    decreases |ys|, 0
  {
    if xs != [] && xs[0] == ys[0] {
      SubsequenceDrop(xs, ys[1..]);
    }
  }

  lemma {:induction false} SubsequenceDrop(xs: seq<Product>, ys: seq<Product>)
    requires xs != [] && IsSubsequence(xs, ys)
    ensures IsSubsequence(xs[1..], ys)
    decreases |ys|, 1
  {
    if ys != [] {
      if xs[0] == ys[0] {
        if xs[1..] != [] {
          SubsequenceDrop(xs[1..], ys[1..]);
          SubsequenceSkip(xs[1..], ys);
        }
      } else {
        SubsequenceDrop(xs, ys[1..]);
        if xs[1..] != [] {
          SubsequenceSkip(xs[1..], ys);
        }
      }
    }
  }

  /** `filteredProducts`: every product while no category (or an empty id)
      is selected, else those of the selected category */
  function FilteredProducts(products: seq<Product>, selected: Option<string>): (r: seq<Product>)
    ensures selected.None? || selected == Some("") ==> r == products
    ensures selected.Some? && selected.value != "" ==>
      forall p :: p in r <==> p in products && p.category.id == selected.value
    ensures selected.Some? && selected.value != "" ==> r == FilterByCategory(products, selected.value)
  {
    if selected.Some? && selected.value != "" then FilterByCategory(products, selected.value) else products
  }

  // ---------------------------------------------------------------------
  // Product card rules

  /** The badge text: `featured` wins over `newArrival` */
  function ProductBadge(p: Product): (b: Option<string>)
    ensures b == Some("BESTSELLER") <==> p.featured
    ensures b == Some("NEW") <==> !p.featured && p.newArrival
    ensures b == None <==> !p.featured && !p.newArrival
  {
    if p.featured || p.newArrival then Some(if p.featured then "BESTSELLER" else "NEW") else None
  }

  /** The card's background: the first image of the product, or nothing.
      It is empty exactly when there is no image or the first one resolves
      to nothing. */
  function CoverImage(p: Product): (r: string)
    ensures |p.images| == 0 ==> r == ""
    ensures |p.images| > 0 ==> r == ImageUrl.GetImageUrl(p.images[0])
    ensures r == "" <==> |p.images| == 0 || ImageUrl.GetImageUrl(p.images[0]) == ""
  {
    if |p.images| > 0 then ImageUrl.GetImageUrl(p.images[0]) else ""
  }

  /** `compareAtPrice && compareAtPrice > price`: the struck-through price is
      shown when a non-zero compare-at price exceeds the price */
  function ShowsCompareAtPrice(price: int, compareAtPrice: Option<int>): (r: bool)
    ensures r ==> compareAtPrice.Some? && compareAtPrice.value > price
    ensures compareAtPrice.Some? && compareAtPrice.value > price && compareAtPrice.value != 0 ==> r
  {
    compareAtPrice.Some? && compareAtPrice.value != 0 && compareAtPrice.value > price
  }

  /** Under the catalog schema's `price >= 0`, the zero test is redundant:
      the compare-at price is shown exactly when it exceeds the price */
  lemma ShowsCompareAtPriceUnderSchema(price: int, compareAtPrice: Option<int>)
    requires price >= 0
    ensures ShowsCompareAtPrice(price, compareAtPrice) <==> compareAtPrice.Some? && compareAtPrice.value > price
  {
  }

  // ---------------------------------------------------------------------
  // Language toggle

  /** `toggleLanguage`: English switches to Arabic, every other language to
      English */
  function ToggledLanguage(language: string): (r: string)
    ensures r == "ar" <==> language == "en"
    ensures r == "en" <==> language != "en"
  {
    if language == "en" then "ar" else "en"
  }

  /** Two toggles come back to English or Arabic, but French does not return */
  lemma ToggleTwice(language: string)
    ensures language == "en" || language == "ar" ==> ToggledLanguage(ToggledLanguage(language)) == language
    ensures language != "en" && language != "ar" ==> ToggledLanguage(ToggledLanguage(language)) == "ar"
  {
  }

  // ---------------------------------------------------------------------
  // Page state

  /** The arguments of the page's product request */
  function ShopProductsParams(language: string): ProductsParams {
    ProductsParams(Some(100), None, None, Some(language))
  }

  /** The page asks for up to 100 products of any kind */
  lemma ShopProductsQuery(language: string)
    ensures var q := ProductsQuery(ShopProductsParams(language));
      && Lookup(q, "limit") == Some("100")
      && Lookup(q, "where") == None
      && Lookup(q, "locale") == Some(SanitizeLocale(Some(language)))
  {
    assert Text.IntToString(100) == "100";
  }

  /** How the page's two concurrent requests settle together: both lists, or
      the failure of one of the requests */
  function ShopFetchOutcome(language: string, now: nat,
                            categories: HttpResponse<PayloadResponse<Category>>,
                            products: HttpResponse<PayloadResponse<Product>>)
    : (r: Result<(seq<Category>, seq<Product>)>)
    ensures r.Success? <==> categories.Response? && categories.ok && products.Response? && products.ok
    ensures r.Success? ==> r.value == (categories.body.docs, products.body.docs)
  {
    var c := GetCategories(Some(language), now, categories).result;
    var p := GetProducts(ShopProductsParams(language), now, products).result;
    match All2(c, p)
    case Success(pair) => Success((pair.0, pair.1.docs))
    case Failure(e) => Failure(e)
  }

  /** What the page shows below the category bar */
  datatype ShopView = ShopView(spinner: bool, errorBanner: Option<string>, grid: seq<Product>)

  function View(loading: bool, error: Option<string>, products: seq<Product>, selected: Option<string>): (v: ShopView)
    ensures v.spinner == loading
    ensures v.errorBanner.Some? <==> !loading && error.Some? && error.value != ""
    ensures v.errorBanner.Some? ==> v.errorBanner == error
    ensures loading ==> v.grid == []
    ensures !loading ==> v.grid == FilteredProducts(products, selected)
  {
    ShopView(
      loading,
      if error.Some? && error.value != "" && !loading then error else None,
      if loading then [] else FilteredProducts(products, selected))
  }

  /** After a failed reload the banner appears above the grid, and the
      products of the previous successful load stay listed beneath it */
  lemma FailureKeepsGrid(products: seq<Product>, selected: Option<string>)
    ensures var v := View(false, Some(LoadFailedMessage), products, selected);
      v.errorBanner == Some(LoadFailedMessage) && v.grid == FilteredProducts(products, selected)
  {
  }

  class ShopPage {
    var products: seq<Product>
    var categories: seq<Category>
    var selectedCategory: Option<string>
    var loading: bool
    var error: Option<string>

    /** The state before the first fetch settles */
    constructor ()
      ensures products == [] && categories == [] && selectedCategory == None
      ensures loading && error == None
    {
      products := [];
      categories := [];
      selectedCategory := None;
      loading := true;
      error := None;
    }

    /** "View all" clears the selection */
    method ViewAll()
      modifies this`selectedCategory
      ensures selectedCategory == None
    {
      selectedCategory := None;
    }

    /** A category button selects that category */
    method SelectCategory(c: Category)
      modifies this`selectedCategory
      ensures selectedCategory == Some(c.id)
    {
      selectedCategory := Some(c.id);
    }

    /** The start of `fetchData` */
    method BeginFetch()
      modifies this`loading
      ensures loading
    {
      loading := true;
    }

    /** The end of `fetchData`, once both requests have settled: on success
      both lists are replaced and the error cleared, on failure the lists are
      kept and the error set; either way loading ends. The selection is never
      touched. */
    method SettleFetch(outcome: Result<(seq<Category>, seq<Product>)>)
      modifies this`categories, this`products, this`error, this`loading
      ensures !loading
      ensures outcome.Success? ==>
        categories == outcome.value.0 && products == outcome.value.1 && error == None
      ensures outcome.Failure? ==>
        categories == old(categories) && products == old(products) && error == Some(LoadFailedMessage)
    {
      loading := false;
      match outcome
      case Success(data) =>
        categories := data.0;
        products := data.1;
        error := None;
      case Failure(_) =>
        error := Some(LoadFailedMessage);
    }

    function CurrentView(): ShopView
      reads this
    {
      View(loading, error, products, selectedCategory)
    }
  }
}
