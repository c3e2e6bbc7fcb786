/**
 * The landing page (pages/Home.tsx): the hero and review carousels, the
 * three-request load with its loading and error states, the hero title with
 * its last two words highlighted, and the first three category tiles.
 */
module Home {
  import opened Wrappers
  import opened Text
  import opened Api

  /** The four customer-review screenshots, in display order */
  const Reviews: seq<string> := [
    "/reviews/Screenshot 2025-12-24 at 14.26.55.png",
    "/reviews/Screenshot 2025-12-24 at 14.27.11.png",
    "/reviews/Screenshot 2025-12-24 at 14.27.39.png",
    "/reviews/Screenshot 2025-12-24 at 14.28.36.png"
  ]

  // ---------------------------------------------------------------------
  // Carousels

  /** One timer tick, `(prev + 1) % length`: the next position, wrapping from
      the last back to the first; a position past the end is brought back in
      range */
  function NextIndex(prev: nat, n: nat): (r: nat)
    requires n > 0
    ensures r < n
    ensures prev + 1 < n ==> r == prev + 1
    ensures prev + 1 == n ==> r == 0
  {
    (prev + 1) % n
  }

  /** The position after `k` ticks */
  function Advance(i: nat, n: nat, k: nat): nat
    requires n > 0
    decreases k
  {
    if k == 0 then i else NextIndex(Advance(i, n, k - 1), n)
  }

  /** Ticks add up: `a` ticks then `b` ticks is `a + b` ticks */
  lemma {:induction false} AdvanceCompose(i: nat, n: nat, a: nat, b: nat)
    requires n > 0
    ensures Advance(Advance(i, n, a), n, b) == Advance(i, n, a + b)
    decreases b
  {
    if b > 0 {
      AdvanceCompose(i, n, a, b - 1);
    }
  }

  /** Before the end of the ring is reached, `k` ticks move `k` places */
  lemma {:induction false} AdvanceWithinRing(i: nat, n: nat, k: nat)
    requires n > 0 && i + k < n
    ensures Advance(i, n, k) == i + k
    decreases k
  {
    if k > 0 {
      AdvanceWithinRing(i, n, k - 1);
    }
  }

  /** From a valid position `i`, `n - i` ticks wrap round to the first */
  lemma AdvanceWraps(i: nat, n: nat)
    requires i < n
    ensures Advance(i, n, n - i) == 0
  {
    AdvanceWithinRing(i, n, n - i - 1);
  }

  /** `k` ticks from a valid position land `k` places further round the
      ring, for any `k` up to a full turn */
  lemma AdvancePosition(i: nat, n: nat, k: nat)
    requires i < n && k <= n
    ensures i + k < n ==> Advance(i, n, k) == i + k
    ensures i + k >= n ==> Advance(i, n, k) == i + k - n
  {
    if i + k < n {
      AdvanceWithinRing(i, n, k);
    } else {
      AdvanceWraps(i, n);
      AdvanceCompose(i, n, n - i, k - (n - i));
      AdvanceWithinRing(0, n, k - (n - i));
    }
  }

  /** Starting from the first slide, the `j`-th tick shows slide `j`, so every
      slide is shown; after `n` ticks the carousel is back where it started,
      and not before */
  lemma CarouselCycle(i: nat, n: nat, k: nat)
    requires i < n
    ensures Advance(i, n, n) == i
    ensures 0 < k < n ==> Advance(i, n, k) != i
    ensures k < n ==> Advance(0, n, k) == k
  {
    AdvancePosition(i, n, n);
    if k < n {
      AdvancePosition(i, n, k);
      AdvancePosition(0, n, k);
    }
  }

  // ---------------------------------------------------------------------
  // Loading

  /** The message a rejected `fetchWithCacheControl` carries */
  function RejectionMessage<T>(response: HttpResponse<T>): string {
    match response
    case NetworkError(message) => message
    case Response(_, status, _) => "Fetch failed: " + IntToString(status)
  }

  /** How the page's three concurrent requests settle together: hero
      slides, categories and the three featured products, or the rejection
      of one of the failed requests */
  function HomeFetchOutcome(language: string, now: nat,
                            heroes: HttpResponse<PayloadResponse<HeroSlide>>,
                            categories: HttpResponse<PayloadResponse<Category>>,
                            products: HttpResponse<PayloadResponse<Product>>)
    : (r: Result<(seq<HeroSlide>, seq<Category>, seq<Product>)>)
    ensures r.Success? <==> Succeeds(heroes) && Succeeds(categories) && Succeeds(products)
    ensures r.Success? ==> r.value == (heroes.body.docs, categories.body.docs, products.body.docs)
    ensures r.Failure? ==>
      (!Succeeds(heroes) && r.error == RejectionMessage(heroes)) ||
      (!Succeeds(categories) && r.error == RejectionMessage(categories)) ||
      (!Succeeds(products) && r.error == RejectionMessage(products))
  {
    All3(GetHeroSlides(Some(language), now, heroes).result,
         GetCategories(Some(language), now, categories).result,
         GetFeaturedProducts(Some(3), Some(language), now, products).result)
  }

  /** The featured request asks for three featured products */
  lemma HomeFeaturedQuery(language: string)
    ensures var q := ProductsQuery(FeaturedParams(Some(3), Some(language)));
      Lookup(q, "limit") == Some("3") && Lookup(q, "where") == Some("{\"featured\":{\"equals\":true}}")
  {
    FeaturedQuery(Some(3), Some(language));
    assert IntToString(3) == "3";
  }

  const LoadErrorPrefix: string := "Failed to load: "

  /** `Failed to load: ${err.message || 'Unknown error'}` */
  function LoadErrorMessage(message: string): (r: string)
    ensures StartsWith(r, LoadErrorPrefix)
    ensures message != "" ==> r[|LoadErrorPrefix|..] == message
    ensures message == "" ==> r[|LoadErrorPrefix|..] == "Unknown error"
  {
    LoadErrorPrefix + (if message == "" then "Unknown error" else message)
  }

  /** What the page shows: the spinner, the error panel, or the content */
  datatype HomeView = Spinner | ErrorPanel(message: string) | Content

  /** `loading && …`, `error && !loading && …`, `!loading && !error && …`:
      an empty error string is no error */
  function View(loading: bool, error: Option<string>): (v: HomeView)
    ensures v == Spinner <==> loading
    ensures v.ErrorPanel? <==> !loading && error.Some? && error.value != ""
    ensures v.ErrorPanel? ==> v.message == error.value
    ensures v == Content <==> !loading && (error.None? || error.value == "")
  {
    if loading then Spinner
    else if error.Some? && error.value != "" then ErrorPanel(error.value)
    else Content
  }

  /** A settled failure is always visible: the message is never empty */
  lemma {:induction false} FailureShowsPanel(message: string)
    ensures View(false, Some(LoadErrorMessage(message))) == ErrorPanel(LoadErrorMessage(message))
  {
    assert |LoadErrorMessage(message)| >= |LoadErrorPrefix| > 0;
  }

  /** A non-ok status reaches the panel as the status code */
  lemma StatusInPanel<T>(status: int, body: T)
    ensures LoadErrorMessage(RejectionMessage(Response(false, status, body))) ==
      "Failed to load: Fetch failed: " + IntToString(status)
  {
  }

  // ---------------------------------------------------------------------
  // Hero title

  datatype Span = Span(text: string, highlighted: bool)

  /** The span for word `i` of `n`: in Arabic every word is plain and followed
      by a space; otherwise the last two words are highlighted, the very last
      one preceded by a space, and every other word is followed by one */
  function WordSpan(word: string, i: nat, n: nat, language: string): Span {
    if language == "ar" then Span(word + " ", false)
    else if i >= n - 2 then Span((if i > n - 2 then " " else "") + word, true)
    else Span(word + " ", false)
  }

  /** `title.split(' ').map(…)` */
  function TitleSpans(title: string, language: string): (r: seq<Span>)
    ensures |r| == |Split(title, " ")| >= 1
    ensures forall i :: 0 <= i < |r| ==> (r[i].highlighted <==> language != "ar" && i >= |r| - 2)
  {
    var words := Split(title, " ");
    seq(|words|, i requires 0 <= i < |words| => WordSpan(words[i], i, |words|, language))
  }

  /** The text of the heading, span after span */
  function Texts(spans: seq<Span>): string {
    if spans == [] then "" else spans[0].text + Texts(spans[1..])
  }

  lemma {:induction false} TextsAppend(a: seq<Span>, b: seq<Span>)
    ensures Texts(a + b) == Texts(a) + Texts(b)
    decreases |a|
  {
    if a == [] {
      assert a + b == b;
    } else {
      assert (a + b)[1..] == a[1..] + b;
      TextsAppend(a[1..], b);
    }
  }

  /** Spans that each hold a word and a space, followed by the remaining words
      joined, give back all the words joined */
  lemma {:induction false} PlainPrefix(words: seq<string>, spans: seq<Span>, k: nat)
    requires k < |words| && k <= |spans|
    requires forall i :: 0 <= i < k ==> spans[i].text == words[i] + " "
    ensures Texts(spans[..k]) + Join(words[k..], " ") == Join(words, " ")
    decreases k
  {
    if k > 0 {
      PlainPrefix(words[1..], spans[1..], k - 1);
      assert spans[..k][1..] == spans[1..][..k - 1];
      assert words[1..][k - 1..] == words[k..];
    }
  }

  /** In Arabic the heading reads as the title followed by a space */
  lemma ArabicTitleText(title: string)
    ensures Texts(TitleSpans(title, "ar")) == title + " "
  {
    var words := Split(title, " ");
    var spans := TitleSpans(title, "ar");
    var n := |words|;
    PlainPrefix(words, spans, n - 1);
    assert words[n - 1..] == [words[n - 1]];
    assert spans == spans[..n - 1] + [spans[n - 1]];
    TextsAppend(spans[..n - 1], [spans[n - 1]]);
  }

  /** In other languages a title of two or more words reads back exactly */
  lemma LatinTitleText(title: string, language: string)
    requires language != "ar" && |Split(title, " ")| >= 2
    ensures Texts(TitleSpans(title, language)) == title
  {
    var words := Split(title, " ");
    var spans := TitleSpans(title, language);
    var n := |words|;
    PlainPrefix(words, spans, n - 2);
    assert spans[n - 2].text == words[n - 2];
    assert spans[n - 1].text == " " + words[n - 1];
    var last := spans[n - 2..];
    assert last[1..] == [spans[n - 1]];
    assert Texts([spans[n - 1]]) == spans[n - 1].text;
    assert Texts(last) == words[n - 2] + " " + words[n - 1];
    assert words[n - 2..][1..] == words[n - 1..] == [words[n - 1]];
    assert Join(words[n - 2..], " ") == words[n - 2] + " " + words[n - 1];
    assert spans == spans[..n - 2] + last;
    TextsAppend(spans[..n - 2], last);
  }

  /** A one-word title in another language is preceded by a space */
  lemma LatinSingleWordText(title: string, language: string)
    requires language != "ar" && |Split(title, " ")| == 1
    ensures Texts(TitleSpans(title, language)) == " " + title
  {
    var spans := TitleSpans(title, language);
    assert spans[1..] == [];
  }

  // ---------------------------------------------------------------------
  // Category tiles

  /** `categories.slice(0, 3)` */
  function FeaturedCategories(categories: seq<Category>): (r: seq<Category>)
    ensures |r| == if |categories| < 3 then |categories| else 3
    ensures forall i :: 0 <= i < |r| ==> r[i] == categories[i]
  {
    categories[..if |categories| < 3 then |categories| else 3]
  }

  // ---------------------------------------------------------------------
  // Page state

  class HomePage {
    var heroSlides: seq<HeroSlide>
    var currentSlide: nat
    var reviewIndex: nat
    var categories: seq<Category>
    var featuredProducts: seq<Product>
    var loading: bool
    var error: Option<string>

    /** The state before the first load settles */
    constructor ()
      ensures heroSlides == [] && categories == [] && featuredProducts == []
      ensures currentSlide == 0 && reviewIndex == 0
      ensures loading && error == None
    {
      heroSlides := [];
      currentSlide := 0;
      reviewIndex := 0;
      categories := [];
      featuredProducts := [];
      loading := true;
      error := None;
    }

    /** The hero timer only runs with more than one slide; each tick moves
      to the next slide, wrapping round */
    method HeroTick()
      modifies this`currentSlide
      ensures |heroSlides| > 1 ==> currentSlide == NextIndex(old(currentSlide), |heroSlides|)
      ensures |heroSlides| <= 1 ==> currentSlide == old(currentSlide)
      ensures |heroSlides| > 1 ==> HeroInRange()
    {
      if |heroSlides| > 1 {
        currentSlide := (currentSlide + 1) % |heroSlides|;
      }
    }

    /** The review timer always runs, over the four reviews */
    method ReviewTick()
      modifies this`reviewIndex
      ensures reviewIndex == NextIndex(old(reviewIndex), |Reviews|)
    {
      reviewIndex := (reviewIndex + 1) % |Reviews|;
    }

    /** A hero indicator, shown only with more than one slide, selects its
      slide */
    method ClickHeroIndicator(i: nat)
      requires |heroSlides| > 1 && i < |heroSlides|
      modifies this`currentSlide
      ensures currentSlide == i && HeroInRange()
    {
      currentSlide := i;
    }

    /** A review indicator selects its review */
    method ClickReviewIndicator(i: nat)
      requires i < |Reviews|
      modifies this`reviewIndex
      ensures reviewIndex == i
    {
      reviewIndex := i;
    }

    /** The start of `fetchData` */
    method BeginFetch()
      modifies this`loading
      ensures loading
    {
      loading := true;
    }

    /** The end of `fetchData`: on success the three lists are replaced and
      the error cleared, on failure the lists are kept and the error set from
      the rejection's message; either way loading ends. The carousel
      positions are not reset. */
    method SettleFetch(outcome: Result<(seq<HeroSlide>, seq<Category>, seq<Product>)>)
      modifies this`heroSlides, this`categories, this`featuredProducts, this`error, this`loading
      ensures !loading
      ensures outcome.Success? ==>
        heroSlides == outcome.value.0 && categories == outcome.value.1 &&
        featuredProducts == outcome.value.2 && error == None
      ensures outcome.Failure? ==>
        heroSlides == old(heroSlides) && categories == old(categories) &&
        featuredProducts == old(featuredProducts) && error == Some(LoadErrorMessage(outcome.error))
    {
      loading := false;
      match outcome
      case Success(data) =>
        heroSlides := data.0;
        categories := data.1;
        featuredProducts := data.2;
        error := None;
      case Failure(message) =>
        error := Some(LoadErrorMessage(message));
    }

    /** The end of `fetchData` as evidently intended: as `SettleFetch`, but
      a slide position the new slides do not reach goes back to the first
      slide, so some slide is always shown */
    method SettleFetchInRange(outcome: Result<(seq<HeroSlide>, seq<Category>, seq<Product>)>)
      modifies this`heroSlides, this`currentSlide, this`categories, this`featuredProducts, this`error, this`loading
      ensures !loading
      ensures outcome.Success? ==>
        heroSlides == outcome.value.0 && categories == outcome.value.1 &&
        featuredProducts == outcome.value.2 && error == None
      ensures outcome.Success? ==> HeroInRange()
      ensures outcome.Success? && old(currentSlide) < |heroSlides| ==> currentSlide == old(currentSlide)
      ensures outcome.Success? && old(currentSlide) >= |heroSlides| ==> currentSlide == 0
      ensures outcome.Failure? ==>
        heroSlides == old(heroSlides) && categories == old(categories) &&
        featuredProducts == old(featuredProducts) && currentSlide == old(currentSlide) &&
        error == Some(LoadErrorMessage(outcome.error))
    {
      SettleFetch(outcome);
      if outcome.Success? && currentSlide >= |heroSlides| {
        currentSlide := 0;
      }
    }

    /** Some slide is shown, unless there are none to show */
    ghost predicate HeroInRange()
      reads this
    {
      heroSlides == [] || currentSlide < |heroSlides|
    }

    /** `currentSlide === index`: the slide shown at full opacity, if any */
    function ShownSlide(): (r: Option<nat>)
      reads this
      ensures r.Some? <==> currentSlide < |heroSlides|
      ensures r.Some? ==> r.value == currentSlide
    {
      if currentSlide < |heroSlides| then Some(currentSlide) else None
    }

    function CurrentView(): HomeView
      reads this
    {
      View(loading, error)
    }
  }

  /** A reload that leaves one hero slide while the third is showing (a
      slide deactivated or deleted in the CMS while the page is open, then a
      language switch that triggers the reload): with one slide no timer runs
      and no indicator is rendered, so the page shows no slide from then on */
  method SingleSlideReloadAsWritten(slide: HeroSlide) returns (page: HomePage)
    ensures |page.heroSlides| == 1 && page.currentSlide == 2
    ensures page.ShownSlide() == None
  {
    page := new HomePage();
    page.SettleFetch(Success(([slide, slide, slide], [], [])));
    page.HeroTick();
    page.HeroTick();
    page.BeginFetch();
    page.SettleFetch(Success(([slide], [], [])));
    page.HeroTick();
  }

  /** The same reload with the position brought back in range shows the
      one slide */
  method SingleSlideReloadInRange(slide: HeroSlide) returns (page: HomePage)
    ensures |page.heroSlides| == 1 && page.currentSlide == 0
    ensures page.ShownSlide() == Some(0)
  {
    page := new HomePage();
    page.SettleFetchInRange(Success(([slide, slide, slide], [], [])));
    page.HeroTick();
    page.HeroTick();
    page.BeginFetch();
    page.SettleFetchInRange(Success(([slide], [], [])));
    page.HeroTick();
  }
}
