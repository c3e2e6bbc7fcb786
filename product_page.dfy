/**
 * The product detail page (pages/Product.tsx): which product it loads (by
 * slug, or the first featured product when the route has none), the state
 * the load leaves behind, the selected size, the notes table and what the
 * page renders.
 */
module ProductPage {
  import opened Wrappers
  import opened Api

  const DefaultSize: string := "50ml"
  const NotFoundMessage: string := "Product not found"
  const LoadFailedMessage: string := "Failed to load product details"

  // ---------------------------------------------------------------------
  // Loading

  /** Where the product comes from */
  datatype ProductSource = BySlug(slug: string) | FirstFeatured

  /** `if (slug)`: a present, non-empty slug is looked up; otherwise the
      first featured product stands in */
  function SourceFor(slug: Option<string>): (s: ProductSource)
    ensures s.BySlug? <==> slug.Some? && slug.value != ""
    ensures s.BySlug? ==> s.slug == slug.value
  {
    if slug.Some? && slug.value != "" then BySlug(slug.value) else FirstFeatured
  }

  /** The product `fetchProduct` ends up with: a product, none, or the
      rejection of the one request it makes */
  function FetchedProduct(slug: Option<string>, language: string, now: nat,
                          response: HttpResponse<PayloadResponse<Product>>)
    : (r: Result<Option<Product>>)
    ensures r.Success? <==> Succeeds(response)
    ensures r.Success? ==> (r.value.None? <==> |response.body.docs| == 0)
    ensures r.Success? && r.value.Some? ==> r.value.value == response.body.docs[0]
  {
    match SourceFor(slug)
    case BySlug(s) => GetProductBySlug(s, Some(language), now, response).result
    case FirstFeatured =>
      match GetFeaturedProducts(Some(1), Some(language), now, response).result
      case Success(docs) => Success(if |docs| > 0 then Some(docs[0]) else None)
      case Failure(e) => Failure(e)
  }

  /** The URL of the request `fetchProduct` makes */
  function RequestUrl(slug: Option<string>, language: string, now: nat): (u: string)
    ensures SourceFor(slug).BySlug? ==>
      u == ProductBySlugUrl(slug.value, SanitizeLocale(Some(language))) + "&t=" + Text.NatToString(now)
    ensures SourceFor(slug).FirstFeatured? ==>
      u == ProductsUrl(FeaturedParams(Some(1), Some(language))) + "&t=" + Text.NatToString(now)
  {
    var loc := SanitizeLocale(Some(language));
    var url := match SourceFor(slug)
      case BySlug(s) => ProductBySlugUrl(s, loc)
      case FirstFeatured => ProductsUrl(FeaturedParams(Some(1), Some(language)));
    assert url[|ApiUrl + "/products"|] == '?';
    CacheBustedQueried(url, now);
    CacheBusted(url, now)
  }

  /** The fallback asks for exactly one featured product */
  lemma FallbackQuery(language: string)
    ensures var q := ProductsQuery(FeaturedParams(Some(1), Some(language)));
      Lookup(q, "limit") == Some("1") && Lookup(q, "where") == Some("{\"featured\":{\"equals\":true}}")
  {
    FeaturedQuery(Some(1), Some(language));
    assert Text.IntToString(1) == "1";
  }

  /** `data.size || '50ml'`: never empty, and the product's own size when it
      has one */
  function SizeOrDefault(size: string): (r: string)
    ensures r != ""
    ensures size != "" ==> r == size
    ensures size == "" ==> r == DefaultSize
  {
    if size != "" then size else DefaultSize
  }

  /** The error a settled load leaves: cleared by a product, "not found"
      when there is none, a generic failure when the request rejected */
  function SettledError(outcome: Result<Option<Product>>): (e: Option<string>)
    ensures e.None? <==> outcome.Success? && outcome.value.Some?
    ensures e == Some(NotFoundMessage) <==> outcome == Success(None)
    ensures e == Some(LoadFailedMessage) <==> outcome.Failure?
  {
    match outcome
    case Success(Some(_)) => None
    case Success(None) => Some(NotFoundMessage)
    case Failure(_) => Some(LoadFailedMessage)
  }

  // ---------------------------------------------------------------------
  // Rendering

  /** The three rows of the notes table */
  datatype ShownNotes = ShownNotes(top: string, middle: string, base: string)

  /** `product.notes || { top: '-', middle: '-', base: '-' }`: without notes
      every row shows a dash; with notes a missing row shows nothing */
  function DisplayedNotes(p: Product): (n: ShownNotes)
    ensures p.notes.None? ==> n == ShownNotes("-", "-", "-")
    ensures p.notes.Some? && p.notes.value.top.Some? ==> n.top == p.notes.value.top.value
    ensures p.notes.Some? && p.notes.value.middle.Some? ==> n.middle == p.notes.value.middle.value
    ensures p.notes.Some? && p.notes.value.base.Some? ==> n.base == p.notes.value.base.value
    ensures p.notes.Some? && p.notes.value.top.None? ==> n.top == ""
    ensures p.notes.Some? && p.notes.value.middle.None? ==> n.middle == ""
    ensures p.notes.Some? && p.notes.value.base.None? ==> n.base == ""
  {
    match p.notes
    case None => ShownNotes("-", "-", "-")
    case Some(notes) => ShownNotes(Shown(notes.top), Shown(notes.middle), Shown(notes.base))
  }

  /** An absent string renders as nothing */
  function Shown(s: Option<string>): string {
    if s.Some? then s.value else ""
  }

  /** What the page renders */
  datatype ProductView = Spinner | Missing(message: string) | Details(product: Product)

  /** `if (loading)`, then `if (error || !product)` with the message
      `error || 'Product not found'`, then the details */
  function View(loading: bool, error: Option<string>, product: Option<Product>): (v: ProductView)
    ensures v == Spinner <==> loading
    ensures v.Details? <==> !loading && (error.None? || error.value == "") && product.Some?
    ensures v.Details? ==> v.product == product.value
    ensures v.Missing? && error.Some? && error.value != "" ==> v.message == error.value
    ensures v.Missing? && (error.None? || error.value == "") ==> v.message == NotFoundMessage
  {
    if loading then Spinner
    else if (error.Some? && error.value != "") || product.None? then
      Missing(if error.Some? && error.value != "" then error.value else NotFoundMessage)
    else Details(product.value)
  }

  /** Once a load settles, the page shows the loaded product, "not found" or
      the failure, whatever product an earlier load left behind */
  lemma ViewAfterSettle(outcome: Result<Option<Product>>, previous: Option<Product>)
    ensures var product := if outcome.Success? && outcome.value.Some? then outcome.value else previous;
      var v := View(false, SettledError(outcome), product);
      && (outcome.Success? && outcome.value.Some? ==> v == Details(outcome.value.value))
      && (outcome == Success(None) ==> v == Missing(NotFoundMessage))
      && (outcome.Failure? ==> v == Missing(LoadFailedMessage))
  {
  }

  /** A route without a slug and no featured product: "not found"; any
      rejected request: the generic failure */
  lemma FetchToView(slug: Option<string>, language: string, now: nat,
                    response: HttpResponse<PayloadResponse<Product>>, previous: Option<Product>)
    ensures var outcome := FetchedProduct(slug, language, now, response);
      var product := if outcome.Success? && outcome.value.Some? then outcome.value else previous;
      var v := View(false, SettledError(outcome), product);
      && (!Succeeds(response) ==> v == Missing(LoadFailedMessage))
      && (Succeeds(response) && |response.body.docs| == 0 ==> v == Missing(NotFoundMessage))
      && (Succeeds(response) && |response.body.docs| > 0 ==> v == Details(response.body.docs[0]))
  {
    ViewAfterSettle(FetchedProduct(slug, language, now, response), previous);
  }

  // ---------------------------------------------------------------------
  // Page state

  class ProductPage {
    var product: Option<Product>
    var loading: bool
    var error: Option<string>
    var selectedSize: string

    /** The state before the first load settles */
    constructor ()
      ensures product == None && loading && error == None && selectedSize == DefaultSize
    {
      product := None;
      loading := true;
      error := None;
      selectedSize := DefaultSize;
    }

    /** The start of `fetchProduct` */
    method BeginFetch()
      modifies this`loading
      ensures loading
    {
      loading := true;
    }

    /** The end of `fetchProduct`: a product replaces the shown one, resets
      the size and clears the error; otherwise only the error is set; either
      way loading ends */
    method SettleFetch(outcome: Result<Option<Product>>)
      modifies this`product, this`selectedSize, this`error, this`loading
      ensures !loading
      ensures error == SettledError(outcome)
      ensures outcome.Success? && outcome.value.Some? ==>
        product == outcome.value && selectedSize == SizeOrDefault(outcome.value.value.size)
      ensures !(outcome.Success? && outcome.value.Some?) ==>
        product == old(product) && selectedSize == old(selectedSize)
    {
      loading := false;
      match outcome
      case Success(data) =>
        if data.Some? {
          product := data;
          selectedSize := SizeOrDefault(data.value.size);
          error := None;
        } else {
          error := Some(NotFoundMessage);
        }
      case Failure(_) =>
        error := Some(LoadFailedMessage);
    }

    function CurrentView(): ProductView
      reads this
    {
      View(loading, error, product)
    }
  }
}
