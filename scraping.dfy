/** The review harvester of scarping_app.py: per-field lookups on one
    review card, the completeness rule with its skip counter, the per-page
    filter, the page fetch and the coordinator that builds the page URLs and
    joins the pages in page order.

    HTML parsing is abstracted away: a review card is given as the outcome of
    its five element lookups (`soup.find(...)`), a page as the list of its
    review cards (`soup.find_all('article', ...)`, in document order), and a
    page fetch as a `Result` that is either that list or a fetch error. */
module Scraping {
  import opened Wrappers
  import opened Text
  import opened Rating

  /** The `<img>` inside the star-rating element; `alt` is None when the
      image has no `alt` attribute, where `img['alt']` raises `KeyError`. */
  datatype Image = Image(alt: Option<string>)

  /** The star-rating `<div>`; `img` is its first `<img>`, if any. */
  datatype StarRating = StarRating(img: Option<Image>)

  /** One review card: for each field, the raw `get_text()` of the element
      the field's selector finds, or None when nothing matches. */
  datatype Fragment = Fragment(
    title: Option<string>,
    body: Option<string>,
    date: Option<string>,
    rating: Option<StarRating>,
    reviewer: Option<string>)

  /** The five-field record `[title, body, date, rating, reviewer]`. */
  datatype Review = Review(title: string, body: string, date: string, rating: nat, reviewer: string)

  /** The exceptions the rating lookup can raise: `img['alt']` without an
      `alt` attribute (`KeyError`), and `int(...)` of a group longer than
      CPython's digit limit (`ValueError`, as `Rating.ParseRating` reports it). */
  datatype Fault = MissingAltAttribute | IntConversion(error: ParseError)

  /** Why a page contributes nothing: any exception raised while fetching or
      reading the page (a bad status from `raise_for_status`, a connection
      error or timeout, a decoding or parsing error), all caught by the same
      handler and not told apart. */
  datatype FetchError = FetchFailed

  /** What `fetch_page` receives from the network for one URL: the page's
      review cards, or the error that `raise_for_status` or the session raised. */
  type FetchResult = Result<seq<Fragment>, FetchError>

  // ---------------------------------------------------------------------
  // Field lookups

  /** `find_review_title`, `find_review_body`, `find_review_date` and
      `find_reviewer_name`: None when the element is absent, otherwise its
      text with surrounding whitespace removed. */
  function FindText(element: Option<string>): (r: Option<string>)
    ensures r.None? <==> element.None?
    ensures r.Some? ==> r.value == Strip(element.value) && Trimmed(r.value)
  {
    match element
    case None => None
    case Some(text) =>
      StripSpec(text);
      Some(Strip(text))
  }

  /** The alt attribute of the rating image is read but absent. */
  predicate AltMissing(element: Option<StarRating>) {
    element.Some? && element.value.img.Some? && element.value.img.value.alt.None?
  }

  /** The rating lookup raises: the image has no `alt`, or its alt text
      matches with a group too long for `int`. */
  ghost predicate RatingRaises(element: Option<StarRating>) {
    && element.Some? && element.value.img.Some?
    && (element.value.img.value.alt.None? || ExceedsDigitLimit(element.value.img.value.alt.value))
  }

  /** `find_review_rating`: no rating element or no image gives None; an
      image without `alt` raises, and so does a matched group longer than the
      digit limit; otherwise the result is the regex search on the alt text,
      whether or not the `'Rated' in alt` pre-check is taken. */
  function FindReviewRating(element: Option<StarRating>): (r: Result<Option<nat>, Fault>)
    ensures r.Failure? <==> RatingRaises(element)
    ensures AltMissing(element) ==> r == Failure(MissingAltAttribute)
    ensures element.None? || element.value.img.None? ==> r == Success(None)
    ensures element.Some? && element.value.img.Some? && element.value.img.value.alt.Some? ==>
      var alt := element.value.img.value.alt.value;
      !ExceedsDigitLimit(alt) ==> r == Success(SearchRating(alt))
  {
    match element
    case None => Success(None)
    case Some(star) =>
      match star.img
      case None => Success(None)
      case Some(img) =>
        match img.alt
        case None => Failure(MissingAltAttribute)
        case Some(alt) =>
          if ContainsRated(alt) then
            match ParseRating(alt)
            case Failure(e) => Failure(IntConversion(e))
            case Success(rating) => Success(rating)
          else
            PrecheckIsRedundant(alt);
            Success(None)
  }

  // ---------------------------------------------------------------------
  // Completeness rule

  /** What `extract_review_details` makes of one card. */
  datatype Extraction = Complete(review: Review) | Incomplete | Faulted

  /** The specification of `extract_review_details`: a fault in the rating
      lookup gives `Faulted`; otherwise a record is produced exactly when all
      five lookups found something, with the fields in the order title, body,
      date, rating, reviewer; any missing field gives `Incomplete`. */
  function Details(f: Fragment): (r: Extraction)
    ensures r.Faulted? <==> RatingRaises(f.rating)
    ensures r.Complete? <==>
      && f.title.Some? && f.body.Some? && f.date.Some? && f.reviewer.Some?
      && FindReviewRating(f.rating).Success? && FindReviewRating(f.rating).value.Some?
    ensures r.Complete? ==>
      && r.review.title == Strip(f.title.value)
      && r.review.body == Strip(f.body.value)
      && r.review.date == Strip(f.date.value)
      && r.review.rating == FindReviewRating(f.rating).value.value
      && r.review.reviewer == Strip(f.reviewer.value)
  {
    var rating := FindReviewRating(f.rating);
    if rating.Failure? then Faulted
    else
      var title, body, date, reviewer :=
        FindText(f.title), FindText(f.body), FindText(f.date), FindText(f.reviewer);
      if title.None? || body.None? || date.None? || rating.value.None? || reviewer.None? then Incomplete
      else Complete(Review(title.value, body.value, date.value, rating.value.value, reviewer.value))
  }

  /** A complete record's text fields carry no surrounding whitespace, and
      its rating is the number read from a "Rated <n> out of 5 stars" alt. */
  lemma CompleteRecordShape(f: Fragment)
    requires Details(f).Complete?
    ensures var r := Details(f).review;
      Trimmed(r.title) && Trimmed(r.body) && Trimmed(r.date) && Trimmed(r.reviewer)
    ensures exists j: nat :: MatchesAt(f.rating.value.img.value.alt.value, j)
  {
    StripSpec(f.title.value);
    StripSpec(f.body.value);
    StripSpec(f.date.value);
    StripSpec(f.reviewer.value);
  }

  // ---------------------------------------------------------------------
  // Page filter and coordinator, as specification functions

  /** What `extract_review_details` makes of each card of a page, in
      document order. */
  function ExtractAll(fs: seq<Fragment>): (es: seq<Extraction>)
    ensures |es| == |fs|
    ensures forall i :: 0 <= i < |fs| ==> es[i] == Details(fs[i])
  {
    if fs == [] then [] else ExtractAll(fs[..|fs| - 1]) + [Details(fs[|fs| - 1])]
  }

  /** The records among the outcomes, in order. */
  function Records(es: seq<Extraction>): seq<Review> {
    if es == [] then []
    else Records(es[..|es| - 1]) + (if es[|es| - 1].Complete? then [es[|es| - 1].review] else [])
  }

  /** The number of outcomes rejected as incomplete. */
  function SkipCount(es: seq<Extraction>): nat {
    if es == [] then 0
    else SkipCount(es[..|es| - 1]) + (if es[|es| - 1].Incomplete? then 1 else 0)
  }

  /** The number of outcomes whose extraction raised. */
  function FaultCount(es: seq<Extraction>): nat {
    if es == [] then 0
    else FaultCount(es[..|es| - 1]) + (if es[|es| - 1].Faulted? then 1 else 0)
  }

  /** The records of a page's cards, in document order. */
  function PageReviews(fs: seq<Fragment>): seq<Review> {
    Records(ExtractAll(fs))
  }

  /** Filtering outcomes split in two is filtering each part: the records
      keep document order, and the skips add up. */
  lemma {:induction false} RecordsAppend(a: seq<Extraction>, b: seq<Extraction>)
    ensures Records(a + b) == Records(a) + Records(b)
    ensures SkipCount(a + b) == SkipCount(a) + SkipCount(b)
    decreases |b|
  {
    if b != [] {
      var b' := b[..|b| - 1];
      assert (a + b)[..|a + b| - 1] == a + b';
      RecordsAppend(a, b');
    } else {
      assert a + b == a;
    }
  }

  /** Every card is exactly one of kept, skipped or faulted, so a page
      yields at most one record per card. */
  lemma {:induction false} PageAccounting(es: seq<Extraction>)
    ensures |Records(es)| + SkipCount(es) + FaultCount(es) == |es|
    ensures |Records(es)| <= |es|
  {
    if es != [] {
      PageAccounting(es[..|es| - 1]);
    }
  }

  /** A record is kept exactly when some outcome produced it. */
  lemma {:induction false} RecordsMembers(es: seq<Extraction>, r: Review)
    ensures r in Records(es) <==> exists i :: 0 <= i < |es| && es[i] == Complete(r)
  {
    if es != [] {
      var init, last := es[..|es| - 1], es[|es| - 1];
      RecordsMembers(init, r);
      if r in Records(es) && r in Records(init) {
        var i :| 0 <= i < |init| && init[i] == Complete(r);
        assert es[i] == init[i];
      }
      if exists i :: 0 <= i < |es| && es[i] == Complete(r) {
        var i :| 0 <= i < |es| && es[i] == Complete(r);
        if i < |init| {
          assert init[i] == es[i];
        }
      }
    }
  }

  /** A page's record list holds exactly the records of its complete cards. */
  lemma PageReviewsMembers(fs: seq<Fragment>, r: Review)
    ensures r in PageReviews(fs) <==> exists i :: 0 <= i < |fs| && Details(fs[i]) == Complete(r)
  {
    var es := ExtractAll(fs);
    RecordsMembers(es, r);
    if exists i :: 0 <= i < |fs| && Details(fs[i]) == Complete(r) {
      var i :| 0 <= i < |fs| && Details(fs[i]) == Complete(r);
      assert es[i] == Complete(r);
    }
  }

  /** What one page contributes: nothing when its fetch failed. */
  function PageContribution(response: FetchResult): seq<Review> {
    match response
    case Failure(_) => []
    case Success(fs) => PageReviews(fs)
  }

  /** Skips recorded while processing one page: none when its fetch failed. */
  function PageSkips(response: FetchResult): nat {
    match response
    case Failure(_) => 0
    case Success(fs) => SkipCount(ExtractAll(fs))
  }

  /** `f"{base_url}&page={page}"`. */
  function PageUrl(baseUrl: string, page: nat): string {
    baseUrl + "&page=" + DecimalString(page)
  }

  /** The URLs of pages 1..maxPages, in page order (none when maxPages < 1,
      as `range(1, max_pages + 1)` is then empty). */
  function PageUrls(baseUrl: string, maxPages: int): (urls: seq<string>)
    ensures |urls| == if maxPages < 0 then 0 else maxPages
  {
    if maxPages <= 0 then [] else PageUrls(baseUrl, maxPages - 1) + [PageUrl(baseUrl, maxPages)]
  }

  /** The i-th URL requests page i + 1. */
  lemma {:induction false} PageUrlsAt(baseUrl: string, maxPages: int, i: nat)
    requires i < |PageUrls(baseUrl, maxPages)|
    ensures PageUrls(baseUrl, maxPages)[i] == PageUrl(baseUrl, i + 1)
  {
    if i < maxPages - 1 {
      PageUrlsAt(baseUrl, maxPages - 1, i);
    }
  }

  /** Each page is requested once: the URLs are pairwise distinct. */
  lemma PageUrlsDistinct(baseUrl: string, maxPages: int, i: nat, j: nat)
    requires i < j < |PageUrls(baseUrl, maxPages)|
    ensures PageUrls(baseUrl, maxPages)[i] != PageUrls(baseUrl, maxPages)[j]
  {
    PageUrlsAt(baseUrl, maxPages, i);
    PageUrlsAt(baseUrl, maxPages, j);
    var head := baseUrl + "&page=";
    if PageUrl(baseUrl, i + 1) == PageUrl(baseUrl, j + 1) {
      assert PageUrl(baseUrl, i + 1)[|head|..] == DecimalString(i + 1);
      assert PageUrl(baseUrl, j + 1)[|head|..] == DecimalString(j + 1);
      DecimalStringInjective(i + 1, j + 1);
    }
  }

  /** The per-page results in page order, as `asyncio.gather` returns them. */
  function Contributions(urls: seq<string>, respond: string -> FetchResult): (pages: seq<seq<Review>>)
    ensures |pages| == |urls|
    ensures forall i :: 0 <= i < |urls| ==> pages[i] == PageContribution(respond(urls[i]))
  {
    if urls == [] then []
    else Contributions(urls[..|urls| - 1], respond) + [PageContribution(respond(urls[|urls| - 1]))]
  }

  /** The skips of all pages together. */
  function TotalSkips(urls: seq<string>, respond: string -> FetchResult): nat {
    if urls == [] then 0
    else TotalSkips(urls[..|urls| - 1], respond) + PageSkips(respond(urls[|urls| - 1]))
  }

  /** Pages concatenated in order. */
  function Flatten(pages: seq<seq<Review>>): seq<Review> {
    if pages == [] then [] else Flatten(pages[..|pages| - 1]) + pages[|pages| - 1]
  }

  function SumLengths(pages: seq<seq<Review>>): nat {
    if pages == [] then 0 else SumLengths(pages[..|pages| - 1]) + |pages[|pages| - 1]|
  }

  /** The joined list is as long as all pages together. */
  lemma {:induction false} FlattenLength(pages: seq<seq<Review>>)
    ensures |Flatten(pages)| == SumLengths(pages)
  {
    if pages != [] {
      FlattenLength(pages[..|pages| - 1]);
    }
  }

  /** Joining respects page order: the pages before a split come first. */
  lemma {:induction false} FlattenAppend(a: seq<seq<Review>>, b: seq<seq<Review>>)
    ensures Flatten(a + b) == Flatten(a) + Flatten(b)
    decreases |b|
  {
    if b == [] {
      assert a + b == a;
    } else {
      var b' := b[..|b| - 1];
      assert (a + b)[..|a + b| - 1] == a + b';
      FlattenAppend(a, b');
    }
  }

  /** Gathering one more page appends its list and adds its skips. */
  lemma GatherStep(urls: seq<string>, respond: string -> FetchResult, k: nat)
    requires k < |urls|
    ensures Contributions(urls[..k + 1], respond) ==
      Contributions(urls[..k], respond) + [PageContribution(respond(urls[k]))]
    ensures TotalSkips(urls[..k + 1], respond) == TotalSkips(urls[..k], respond) + PageSkips(respond(urls[k]))
  {
    assert urls[..k + 1][..k] == urls[..k];
  }

  /** When every fetch fails the scrape yields no record and no skip. */
  lemma {:induction false} AllFetchesFail(urls: seq<string>, respond: string -> FetchResult)
    requires forall i :: 0 <= i < |urls| ==> respond(urls[i]).Failure?
    ensures Flatten(Contributions(urls, respond)) == []
    ensures TotalSkips(urls, respond) == 0
  {
    if urls != [] {
      var init := urls[..|urls| - 1];
      assert forall i :: 0 <= i < |init| ==> init[i] == urls[i];
      AllFetchesFail(init, respond);
    }
  }

  /** The URL loop of `scrape_reviews`: `f"{base_url}&page={page}"` for
      each page in `range(1, max_pages + 1)`, in order. */
  method BuildPageUrls(baseUrl: string, maxPages: int) returns (urls: seq<string>)
    ensures urls == PageUrls(baseUrl, maxPages)
  {
    urls := [];
    var page := 1;
    while page <= maxPages
      invariant 1 <= page <= if maxPages >= 1 then maxPages + 1 else 1
      invariant urls == PageUrls(baseUrl, page - 1)
    {
      urls := urls + [PageUrl(baseUrl, page)];
      page := page + 1;
    }
    assert page - 1 == (if maxPages >= 1 then maxPages else 0);
  }

  /** The join loop of `scrape_reviews`: each page's list is appended
      (`extend`) in page order. */
  method JoinPages(pages: seq<seq<Review>>) returns (allReviews: seq<Review>)
    ensures allReviews == Flatten(pages)
  {
    allReviews := [];
    for k := 0 to |pages|
      invariant allReviews == Flatten(pages[..k])
    {
      assert pages[..k + 1][..k] == pages[..k];
      allReviews := allReviews + pages[k];
    }
    assert pages[..|pages|] == pages;
  }

  // ---------------------------------------------------------------------
  // The scraper and its counter

  /** The process-wide state of scarping_app.py: the `skipped_reviews`
      counter, which extraction only ever increases. */
  class ReviewScraper {
    var skippedReviews: nat

    /** Module load: the counter starts at 0. */
    constructor ()
      ensures skippedReviews == 0
    {
      skippedReviews := 0;
    }

    /** `extract_review_details`: the record when all five fields are
        present; otherwise None, counting the card as skipped unless the
        extraction raised. */
    method ExtractReviewDetails(f: Fragment) returns (r: Option<Review>)
      modifies this
      ensures r == (if Details(f).Complete? then Some(Details(f).review) else None)
      ensures skippedReviews == old(skippedReviews) + (if Details(f).Incomplete? then 1 else 0)
    {
      var title := FindText(f.title);
      var body := FindText(f.body);
      var date := FindText(f.date);
      var rating := FindReviewRating(f.rating);
      if rating.Failure? {
        // the exception handler: report and give up on this card
        return None;
      }
      var reviewer := FindText(f.reviewer);
      if title.None? || body.None? || date.None? || rating.value.None? || reviewer.None? {
        skippedReviews := skippedReviews + 1;
        return None;
      }
      r := Some(Review(title.value, body.value, date.value, rating.value.value, reviewer.value));
    }

    /** `extract_reviews_from_page`: the complete records of the page's
        cards in document order; each incomplete card adds one skip. */
    method ExtractReviewsFromPage(fragments: seq<Fragment>) returns (allReviews: seq<Review>)
      modifies this
      ensures allReviews == PageReviews(fragments)
      ensures skippedReviews == old(skippedReviews) + SkipCount(ExtractAll(fragments))
    {
      allReviews := [];
      for i := 0 to |fragments|
        invariant allReviews == PageReviews(fragments[..i])
        invariant skippedReviews == old(skippedReviews) + SkipCount(ExtractAll(fragments[..i]))
      {
        assert fragments[..i + 1][..i] == fragments[..i];
        assert ExtractAll(fragments[..i + 1]) == ExtractAll(fragments[..i]) + [Details(fragments[i])];
        RecordsAppend(ExtractAll(fragments[..i]), [Details(fragments[i])]);
        var details := ExtractReviewDetails(fragments[i]);
        if details.Some? {
          allReviews := allReviews + [details.value];
        }
      }
      assert fragments[..|fragments|] == fragments;
    }

    /** `fetch_page`: a failed fetch contributes no record and no skip;
        otherwise the page is filtered. */
    method FetchPage(response: FetchResult) returns (reviews: seq<Review>)
      modifies this
      ensures reviews == PageContribution(response)
      ensures skippedReviews == old(skippedReviews) + PageSkips(response)
    {
      match response
      case Failure(_) =>
        reviews := [];
      case Success(fragments) =>
        reviews := ExtractReviewsFromPage(fragments);
    }

    /** `scrape_reviews`: one request per page 1..maxPages, in order, then
        the per-page lists joined in page order. `respond` stands for the
        network: it gives the fetch outcome for a URL. The joined tasks are
        run one after another in page order; the order only matters for the
        counter, which ends at the same sum either way. */
    method ScrapeReviews(baseUrl: string, maxPages: int, respond: string -> FetchResult)
      returns (allReviews: seq<Review>, requested: seq<string>)
      modifies this
      ensures requested == PageUrls(baseUrl, maxPages)
      ensures allReviews == Flatten(Contributions(requested, respond))
      ensures skippedReviews == old(skippedReviews) + TotalSkips(requested, respond)
    {
      requested := BuildPageUrls(baseUrl, maxPages);

      // asyncio.gather: one result per task, in task (page) order
      var pagesReviews: seq<seq<Review>> := [];
      for k := 0 to |requested|
        invariant pagesReviews == Contributions(requested[..k], respond)
        invariant skippedReviews == old(skippedReviews) + TotalSkips(requested[..k], respond)
      {
        GatherStep(requested, respond, k);
        var reviews := FetchPage(respond(requested[k]));
        pagesReviews := pagesReviews + [reviews];
      }
      assert requested[..|requested|] == requested;

      allReviews := JoinPages(pagesReviews);
    }
  }
}
