/**
 * The storefront's CMS client (services/api.ts): the catalog entities, the
 * locale sanitizer, the cache-busting fetch helper, the query strings of the
 * resource accessors, and the price and fragrance-type formatters.
 *
 * Network I/O is not modelled: an accessor takes the HTTP response it would
 * receive (or the transport error) and the clock reading as inputs, and
 * returns the URL it requests together with its settled outcome.
 */
module Api {
  import opened Wrappers
  import opened Text

  /** The API root when no override is configured */
  const ApiUrl: string := "http://localhost:4000/api"

  // ---------------------------------------------------------------------
  // Entities, as the CMS returns them at relation depth 2

  datatype CloudinaryAsset = CloudinaryAsset(publicId: string, secureUrl: string, format: string)

  datatype PayloadImage = PayloadImage(
    id: string,
    alt: Option<string>,
    url: string,
    filename: string,
    mimeType: string,
    filesize: int,
    width: int,
    height: int,
    thumbnailUrl: Option<string>,
    cloudinary: Option<CloudinaryAsset>)

  /** What `getImageUrl` accepts: nothing, a plain string (URL, data URI or
      relative path), or an upload document */
  datatype ImageRef = Absent | Reference(path: string) | Upload(image: PayloadImage)

  datatype Category = Category(
    id: string,
    name: string,
    slug: string,
    description: Option<string>,
    image: ImageRef,
    displayOrder: int)

  datatype Notes = Notes(top: Option<string>, middle: Option<string>, base: Option<string>)

  datatype Product = Product(
    id: string,
    name: string,
    slug: string,
    description: string,
    price: int,
    compareAtPrice: Option<int>,
    category: Category,
    parfumType: string,
    size: string,
    images: seq<ImageRef>,
    notes: Option<Notes>,
    featured: bool,
    newArrival: bool,
    inStock: bool,
    stockQuantity: int)

  datatype HeroButton = HeroButton(text: string, link: string)

  datatype HeroSlide = HeroSlide(
    id: string,
    title: string,
    subtitle: Option<string>,
    description: Option<string>,
    backgroundImage: PayloadImage,
    primaryButton: HeroButton,
    secondaryButton: HeroButton,
    active: bool,
    displayOrder: int)

  /** The paginated envelope of every collection endpoint */
  datatype PayloadResponse<T> = PayloadResponse(
    docs: seq<T>,
    totalDocs: int,
    limit: int,
    totalPages: int,
    page: int,
    pagingCounter: int,
    hasPrevPage: bool,
    hasNextPage: bool,
    prevPage: Option<int>,
    nextPage: Option<int>)

  // ---------------------------------------------------------------------
  // Locale sanitizer

  /** `sanitizeLocale`: any locale string, or none, to one of the three
      supported codes, by a case-insensitive prefix test */
  function SanitizeLocale(loc: Option<string>): (r: string)
    ensures r == "en" || r == "ar" || r == "fr"
    ensures loc == None || loc == Some("") ==> r == "en"
    ensures r == "ar" <==> loc.Some? && StartsWith(ToLower(loc.value), "ar")
    ensures r == "fr" <==> loc.Some? && !StartsWith(ToLower(loc.value), "ar") && StartsWith(ToLower(loc.value), "fr")
  {
    if loc.None? || loc.value == "" then "en"
    else
      var l := ToLower(loc.value);
      if StartsWith(l, "ar") then "ar"
      else if StartsWith(l, "fr") then "fr"
      else "en"
  }

  /** Only the first two characters matter, and their case does not */
  lemma SanitizeLocaleByFirstTwo(s: string)
    ensures SanitizeLocale(Some(s)) == "ar" <==> |s| >= 2 && LowerChar(s[0]) == 'a' && LowerChar(s[1]) == 'r'
    ensures SanitizeLocale(Some(s)) == "fr" <==> |s| >= 2 && LowerChar(s[0]) == 'f' && LowerChar(s[1]) == 'r'
  {
    if |s| >= 2 {
      var l := ToLower(s);
      assert l[..2] == [LowerChar(s[0]), LowerChar(s[1])];
    }
  }

  /** Lower-casing the input first changes nothing */
  lemma SanitizeLocaleCaseInsensitive(s: string)
    ensures SanitizeLocale(Some(ToLower(s))) == SanitizeLocale(Some(s))
  {
    ToLowerIdempotent(s);
  }

  /** Sanitizing a sanitized locale gives it back */
  lemma SanitizeLocaleIdempotent(loc: Option<string>)
    ensures SanitizeLocale(Some(SanitizeLocale(loc))) == SanitizeLocale(loc)
  {
    var r := SanitizeLocale(loc);
    SanitizeLocaleByFirstTwo(r);
  }

  // ---------------------------------------------------------------------
  // Fetch helper with cache busting

  /** The URL `fetchWithCacheControl` requests at clock reading `now`: the
      timestamp parameter joined with `&` when the URL already has a query,
      with `?` otherwise */
  function CacheBusted(url: string, now: nat): (r: string)
    ensures |r| > |url| && r[..|url|] == url
    ensures r[|url|] == (if '?' in url then '&' else '?')
    ensures r[|url| + 1..] == "t=" + NatToString(now)
  {
    var separator := if '?' in url then "&" else "?";
    url + separator + "t=" + NatToString(now)
  }

  /** Distinct clock readings give distinct request URLs */
  lemma CacheBustedDistinct(url: string, m: nat, n: nat)
    requires m != n
    ensures CacheBusted(url, m) != CacheBusted(url, n)
  {
    if CacheBusted(url, m) == CacheBusted(url, n) {
      assert NatToString(m) == CacheBusted(url, m)[|url| + 3..];
      NatToStringInjective(m, n);
    }
  }

  /** What `fetch` gives back: a response with its `ok` flag, status and
      decoded JSON body, or a transport failure */
  datatype HttpResponse<T> = Response(ok: bool, status: int, body: T) | NetworkError(message: string)

  /** A request that was issued, and how it settled */
  datatype Fetched<T> = Fetched(url: string, result: Result<T>)

  /** The response `fetchWithCacheControl` resolves with */
  predicate Succeeds<T>(response: HttpResponse<T>) {
    response.Response? && response.ok
  }

  /** `fetchWithCacheControl`: a non-ok status rejects with an error carrying
      the status; a transport failure rejects with its own message */
  function FetchWithCacheControl<T>(url: string, now: nat, response: HttpResponse<T>): (r: Fetched<T>)
    ensures r.url == CacheBusted(url, now)
    ensures r.result.Success? <==> Succeeds(response)
    ensures r.result.Success? ==> r.result.value == response.body
    ensures response.Response? && !response.ok ==>
      r.result.error == "Fetch failed: " + IntToString(response.status)
    ensures response.NetworkError? ==> r.result.error == response.message
  {
    var requested := CacheBusted(url, now);
    match response
    case NetworkError(message) => Fetched(requested, Failure(message))
    case Response(ok, status, body) =>
      if ok then Fetched(requested, Success(body))
      else Fetched(requested, Failure("Fetch failed: " + IntToString(status)))
  }

  /** Every accessor URL already carries a query, so the clock reading is
      joined with `&` */
  lemma CacheBustedQueried(url: string, now: nat)
    requires '?' in url
    ensures CacheBusted(url, now) == url + "&t=" + NatToString(now)
  {
  }

  // ---------------------------------------------------------------------
  // Query strings

  /** One key/value pair of a query string */
  type Query = seq<(string, string)>

  /** `params.get(key)`: the first value under `key` */
  function Lookup(q: Query, key: string): Option<string>
    decreases |q|
  {
    if |q| == 0 then None
    else if q[0].0 == key then Some(q[0].1)
    else Lookup(q[1..], key)
  }

  lemma {:induction false} LookupAppend(a: Query, b: Query, key: string)
    ensures Lookup(a + b, key) == if Lookup(a, key).Some? then Lookup(a, key) else Lookup(b, key)
    decreases |a|
  {
    if |a| > 0 {
      assert (a + b)[1..] == a[1..] + b;
      LookupAppend(a[1..], b, key);
    } else {
      assert a + b == b;
    }
  }

  /** Looking up in four concatenated queries takes the first that has the key */
  lemma LookupChain(a: Query, b: Query, c: Query, d: Query, key: string)
    requires |a| <= 1 && |b| <= 1 && |c| <= 1 && |d| == 2
    ensures Lookup(a + (b + (c + d)), key) ==
      if |a| == 1 && a[0].0 == key then Some(a[0].1)
      else if |b| == 1 && b[0].0 == key then Some(b[0].1)
      else if |c| == 1 && c[0].0 == key then Some(c[0].1)
      else if d[0].0 == key then Some(d[0].1)
      else if d[1].0 == key then Some(d[1].1)
      else None
  {
    LookupAppend(a, b + (c + d), key);
    LookupAppend(b, c + d, key);
    LookupAppend(c, d, key);
    assert |a| == 1 ==> a[1..] == [];
    assert |b| == 1 ==> b[1..] == [];
    assert |c| == 1 ==> c[1..] == [];
    assert d[1..][1..] == [];
  }

  /** `URLSearchParams.toString()`, without the form encoding of keys and values */
  function QueryString(q: Query): string {
    Join(seq(|q|, i requires 0 <= i < |q| => q[i].0 + "=" + q[i].1), "&")
  }

  /** The JSON values that appear in a `where` filter */
  datatype JsonValue = JBool(b: bool) | JString(s: string) | JNumber(n: int)

  /** A `where` filter `{ <field>: { equals: <value> } }` */
  datatype Where = FieldEquals(field: string, value: JsonValue)

  function JsonText(v: JsonValue): string {
    match v
    case JBool(b) => if b then "true" else "false"
    case JString(s) => "\"" + s + "\""
    case JNumber(n) => IntToString(n)
  }

  /** `JSON.stringify(where)`, without string escaping */
  function WhereJson(w: Where): string {
    "{\"" + w.field + "\":{\"equals\":" + JsonText(w.value) + "}}"
  }

  /** The optional arguments of `getProducts` */
  datatype ProductsParams = ProductsParams(
    limit: Option<int>,
    page: Option<int>,
    where: Option<Where>,
    locale: Option<string>)

  /** A number argument is truthy when present and non-zero */
  predicate Truthy(n: Option<int>) {
    n.Some? && n.value != 0
  }

  /** The query `getProducts` sends: `limit`, `page` and `where` only when
      given (and, for the numbers, non-zero), then always the sanitized
      `locale` and `depth=2`, in that order */
  function ProductsQuery(params: ProductsParams): (q: Query)
    ensures Lookup(q, "limit") == if Truthy(params.limit) then Some(IntToString(params.limit.value)) else None
    ensures Lookup(q, "page") == if Truthy(params.page) then Some(IntToString(params.page.value)) else None
    ensures Lookup(q, "where") == if params.where.Some? then Some(WhereJson(params.where.value)) else None
    ensures Lookup(q, "locale") == Some(SanitizeLocale(params.locale))
    ensures Lookup(q, "depth") == Some("2")
    ensures |q| >= 2 && q[|q| - 2..] == [("locale", SanitizeLocale(params.locale)), ("depth", "2")]
    ensures forall k :: 0 <= k < |q| ==> q[k].0 in {"limit", "page", "where", "locale", "depth"}
  {
    var limit: Query := if Truthy(params.limit) then [("limit", IntToString(params.limit.value))] else [];
    var page: Query := if Truthy(params.page) then [("page", IntToString(params.page.value))] else [];
    var where: Query := if params.where.Some? then [("where", WhereJson(params.where.value))] else [];
    var tail: Query := [("locale", SanitizeLocale(params.locale)), ("depth", "2")];
    var q := limit + (page + (where + tail));
    LookupChain(limit, page, where, tail, "limit");
    LookupChain(limit, page, where, tail, "page");
    LookupChain(limit, page, where, tail, "where");
    LookupChain(limit, page, where, tail, "locale");
    LookupChain(limit, page, where, tail, "depth");
    assert q[|q| - 2..] == tail;
    q
  }

  /** `getProducts` filling its `URLSearchParams` by successive appends */
  method BuildProductsQuery(params: ProductsParams) returns (q: Query)
    ensures q == ProductsQuery(params)
  {
    q := [];
    if Truthy(params.limit) {
      q := q + [("limit", IntToString(params.limit.value))];
    }
    if Truthy(params.page) {
      q := q + [("page", IntToString(params.page.value))];
    }
    if params.where.Some? {
      q := q + [("where", WhereJson(params.where.value))];
    }
    q := q + [("locale", SanitizeLocale(params.locale))];
    q := q + [("depth", "2")];
  }

  function ProductsUrl(params: ProductsParams): string {
    ApiUrl + "/products" + "?" + QueryString(ProductsQuery(params))
  }

  // ---------------------------------------------------------------------
  // Resource accessors

  /** `getProducts`: the whole envelope */
  function GetProducts(params: ProductsParams, now: nat, response: HttpResponse<PayloadResponse<Product>>)
    : (r: Fetched<PayloadResponse<Product>>)
    ensures r.url == ProductsUrl(params) + "&t=" + NatToString(now)
    ensures r.result.Success? <==> response.Response? && response.ok
    ensures r.result.Success? ==> r.result.value == response.body
  {
    assert ProductsUrl(params)[|ApiUrl + "/products"|] == '?';
    CacheBustedQueried(ProductsUrl(params), now);
    FetchWithCacheControl(ProductsUrl(params), now, response)
  }

  const FeaturedFilter: Where := FieldEquals("featured", JBool(true))

  /** The `getProducts` arguments of `getFeaturedProducts(limit, locale)`;
      the limit defaults to 10 */
  function FeaturedParams(limit: Option<int>, locale: Option<string>): ProductsParams {
    ProductsParams(Some(if limit.None? then 10 else limit.value), None, Some(FeaturedFilter), locale)
  }

  /** The featured filter is always sent, the limit is 10 unless given, and
      the query is the same whatever the response turns out to hold */
  lemma FeaturedQuery(limit: Option<int>, locale: Option<string>)
    ensures var q := ProductsQuery(FeaturedParams(limit, locale));
      && Lookup(q, "where") == Some("{\"featured\":{\"equals\":true}}")
      && (limit.None? ==> Lookup(q, "limit") == Some("10"))
      && Lookup(q, "page") == None
      && Lookup(q, "locale") == Some(SanitizeLocale(locale))
  {
    assert IntToString(10) == "10";
    assert WhereJson(FeaturedFilter) == "{\"featured\":{\"equals\":true}}";
  }

  /** `getFeaturedProducts`: only the documents of the envelope */
  function GetFeaturedProducts(limit: Option<int>, locale: Option<string>, now: nat,
                               response: HttpResponse<PayloadResponse<Product>>)
    : (r: Fetched<seq<Product>>)
    ensures r.url == ProductsUrl(FeaturedParams(limit, locale)) + "&t=" + NatToString(now)
    ensures r.result.Success? <==> response.Response? && response.ok
    ensures r.result.Success? ==> r.result.value == response.body.docs
  {
    var f := GetProducts(FeaturedParams(limit, locale), now, response);
    match f.result
    case Success(envelope) => Fetched(f.url, Success(envelope.docs))
    case Failure(e) => Fetched(f.url, Failure(e))
  }

  function ProductBySlugUrl(slug: string, loc: string): string {
    ApiUrl + "/products" + "?" + "where[slug][equals]=" + slug + "&limit=1&locale=" + loc + "&depth=2"
  }

  /** `getProductBySlug`: the first matching document, or none when the result
      set is empty; an empty result is not an error */
  function GetProductBySlug(slug: string, locale: Option<string>, now: nat,
                            response: HttpResponse<PayloadResponse<Product>>)
    : (r: Fetched<Option<Product>>)
    ensures r.url == ProductBySlugUrl(slug, SanitizeLocale(locale)) + "&t=" + NatToString(now)
    ensures r.result.Success? <==> response.Response? && response.ok
    ensures r.result.Success? ==>
      (r.result.value.None? <==> |response.body.docs| == 0) &&
      (r.result.value.Some? ==> r.result.value.value == response.body.docs[0])
  {
    var loc := SanitizeLocale(locale);
    assert ProductBySlugUrl(slug, loc)[|ApiUrl + "/products"|] == '?';
    CacheBustedQueried(ProductBySlugUrl(slug, loc), now);
    var f := FetchWithCacheControl(ProductBySlugUrl(slug, loc), now, response);
    match f.result
    case Success(envelope) =>
      Fetched(f.url, Success(if |envelope.docs| > 0 then Some(envelope.docs[0]) else None))
    case Failure(e) => Fetched(f.url, Failure(e))
  }

  function CategoriesUrl(loc: string): string {
    ApiUrl + "/categories" + "?" + "sort=displayOrder&limit=100&locale=" + loc + "&depth=2"
  }

  /** `getCategories`: up to 100 categories by ascending display order */
  function GetCategories(locale: Option<string>, now: nat, response: HttpResponse<PayloadResponse<Category>>)
    : (r: Fetched<seq<Category>>)
    ensures r.url == CategoriesUrl(SanitizeLocale(locale)) + "&t=" + NatToString(now)
    ensures r.result.Success? <==> response.Response? && response.ok
    ensures r.result.Success? ==> r.result.value == response.body.docs
  {
    var loc := SanitizeLocale(locale);
    assert CategoriesUrl(loc)[|ApiUrl + "/categories"|] == '?';
    CacheBustedQueried(CategoriesUrl(loc), now);
    var f := FetchWithCacheControl(CategoriesUrl(loc), now, response);
    match f.result
    case Success(envelope) => Fetched(f.url, Success(envelope.docs))
    case Failure(e) => Fetched(f.url, Failure(e))
  }

  function HeroSlidesUrl(loc: string): string {
    ApiUrl + "/hero-slides" + "?" + "where[active][equals]=true&sort=displayOrder&limit=10&locale=" + loc + "&depth=2"
  }

  /** `getHeroSlides`: up to 10 active slides by ascending display order */
  function GetHeroSlides(locale: Option<string>, now: nat, response: HttpResponse<PayloadResponse<HeroSlide>>)
    : (r: Fetched<seq<HeroSlide>>)
    ensures r.url == HeroSlidesUrl(SanitizeLocale(locale)) + "&t=" + NatToString(now)
    ensures r.result.Success? <==> response.Response? && response.ok
    ensures r.result.Success? ==> r.result.value == response.body.docs
  {
    var loc := SanitizeLocale(locale);
    assert HeroSlidesUrl(loc)[|ApiUrl + "/hero-slides"|] == '?';
    CacheBustedQueried(HeroSlidesUrl(loc), now);
    var f := FetchWithCacheControl(HeroSlidesUrl(loc), now, response);
    match f.result
    case Success(envelope) => Fetched(f.url, Success(envelope.docs))
    case Failure(e) => Fetched(f.url, Failure(e))
  }

  // ---------------------------------------------------------------------
  // Formatters

  /** The grouping convention of the number part of a price */
  datatype NumberStyle = EnUS | FrFR

  const ArabicCurrency: string := " أوقية"
  const LatinCurrency: string := " MRU"

  /** `formatPrice(price, locale = 'en')`. The number part comes from
      `toLocaleString`, which is passed in as `formatNumber`. The locale tests
      are case-sensitive prefix tests, unlike `sanitizeLocale`. */
  function FormatPrice(price: int, locale: Option<string>, formatNumber: (NumberStyle, int) -> string): (r: string)
    ensures var loc := if locale.None? then "en" else locale.value;
      && (EndsWith(r, ArabicCurrency) <==> StartsWith(loc, "ar"))
      && (EndsWith(r, LatinCurrency) <==> !StartsWith(loc, "ar"))
      && r[..|r| - (if StartsWith(loc, "ar") then |ArabicCurrency| else |LatinCurrency|)]
         == formatNumber(if StartsWith(loc, "fr") then FrFR else EnUS, price)
  {
    var loc := if locale.None? then "en" else locale.value;
    var isAr := StartsWith(loc, "ar");
    var isFr := StartsWith(loc, "fr");
    var formattedNumber := if isFr then formatNumber(FrFR, price) else formatNumber(EnUS, price);
    var r := if isAr then formattedNumber + ArabicCurrency else formattedNumber + LatinCurrency;
    assert r[|r| - 1] == if isAr then 'ة' else 'U';
    r
  }

  /** The labels of the four fragrance types */
  const ParfumTypeLabels: map<string, string> := map[
    "eau_de_parfum" := "Eau de Parfum",
    "eau_de_toilette" := "Eau de Toilette",
    "extrait_de_parfum" := "Extrait de Parfum",
    "eau_de_cologne" := "Eau de Cologne"]

  /** `getParfumTypeLabel`: the label of a known code; any other code as is */
  function ParfumTypeLabel(code: string): (r: string)
    ensures code in ParfumTypeLabels ==> r == ParfumTypeLabels[code]
    ensures code !in ParfumTypeLabels ==> r == code
  {
    if code in ParfumTypeLabels && ParfumTypeLabels[code] != "" then ParfumTypeLabels[code] else code
  }

  /** The four known codes get four different labels, none of them a code */
  lemma ParfumTypeLabelsDistinct(a: string, b: string)
    requires a in ParfumTypeLabels && b in ParfumTypeLabels && a != b
    ensures ParfumTypeLabel(a) != ParfumTypeLabel(b)
    ensures ParfumTypeLabel(a) !in ParfumTypeLabels
  {
  }
}
