# Trustpilot review scraper and word counter, modelled in Dafny

This project models the two computational parts of a small Streamlit
application:

- the **review scraper** (`scarping_app.py`), which requests pages
  1..N of a Trustpilot listing, reads five fields from each review card,
  keeps only the cards where all five were found, counts the others,
  unless their extraction raised, in a process-wide `skipped_reviews`
  counter, and joins the pages' records in page order;
- the **word counter** (`word_count_app.py`), which tokenises each
  review's title and body, drops non-alphabetic tokens and stopwords,
  counts every distinct word at most once per review, and lists the words
  from most to least frequent.

Files:

| file | contents |
|---|---|
| `wrappers.dfy` | `Option` and `Result` |
| `text.dfy` | Python's `str.strip()` (with Python's whitespace set), ASCII digit runs, `int(...)` of a digit string and `str(n)` |
| `rating.dfy` | the search for `Rated (\d+) out of 5 stars` in the rating image's `alt` text |
| `scraping.dfy` | review cards, the field lookups, the completeness rule, the page filter, the fetch and the coordinator; the class `ReviewScraper` holds the `skipped_reviews` counter |
| `word_count.dfy` | the token filter, the per-review de-duplicated counter and the sort by count |

How the library calls are represented:

- Each BeautifulSoup `find(...)` is an `Option`: a review card
  (`Fragment`) holds, per field, the raw `get_text()` of the element the
  selector matched, or `None`. The rating element holds its first `<img>`,
  and the image holds its `alt` attribute, which may be absent (then
  `img['alt']` raises `KeyError`). The other exception the extraction code
  can raise on its own data is the `ValueError` of `int(rating.group(1))`
  when the group has more digits than CPython's default limit of 4300
  (`sys.int_info.default_max_str_digits`, enforced since CPython 3.11 and
  in the 3.7-3.10 security releases); the model raises it for a group of
  4301 or more digits. A BeautifulSoup tag is always truthy, so
  `if element:` means "found".
- A page is the sequence of its review cards in document order (what
  `find_all('article', ...)` returns). A page fetch is a
  `Result<seq<Fragment>, FetchError>`; the network is a parameter
  `respond` giving that result for a URL.
- `asyncio.gather` returns the per-page lists in task order, which is page
  order. The model runs the tasks one after another in that order. The
  counter only ever has one added to it, so its final value is the same sum
  whatever the interleaving.
- The four text lookups `find_review_title`, `find_review_body`,
  `find_review_date` and `find_reviewer_name` differ only in the selector,
  which is abstracted away, so all four are `Scraping.FindText` applied to
  the card's corresponding lookup (scarping_app.py lines 13-20, 22-29,
  31-38, 53-60).
- The spaCy tokenizer, `str.lower`, `str.isalpha` and the stopword set
  are fields of a `WordCount.Tools` value and are otherwise unconstrained.

Behaviour of the code that a reader might not expect, and that the model
keeps:

- The rating is not range-checked: `Rated 10 out of 5 stars` yields 10
  (`Rating.SearchRatingAcceptsTen`).
- A card whose extraction raises (no `alt` attribute, or a rating group
  over the digit limit) is dropped without counting it as skipped; only
  cards with a missing field are counted.
- A failed page fetch contributes no record and adds nothing to the
  counter.
- The counter is module state set to 0 when the module is loaded and never
  reset, so it accumulates across scrapes in one process.

## Model

| member | source | states |
|---|---|---|
| `Scraping.FindText` | scarping_app.py:17-20 | None exactly when the element is absent; otherwise the element's text with Python-whitespace stripped from both ends, hence trimmed |
| `Text.IsSpace` | scarping_app.py:19 | the characters `strip()` removes: exactly those of Python's `str.isspace()`, the ASCII tab to carriage return, the four separators U+001C-U+001F, space, and the Unicode spaces U+0085, U+00A0, U+1680, U+2000-U+200A, U+2028, U+2029, U+202F, U+205F and U+3000 |
| `Text.Strip` | scarping_app.py:19 | `str.strip()`; its contract is stated by `Text.StripSpec` and `Text.StripUnique` below |
| `Text.StripSpec` | scarping_app.py:19 | `strip()` returns an infix of the text with only whitespace removed before and after it, and no whitespace at either of its ends |
| `Text.StripUnique` | scarping_app.py:19 | any split of a text into whitespace, a trimmed middle and whitespace has `strip()` as its middle, so the description above determines the result |
| `Text.StripIdempotent` | scarping_app.py:19 | stripping an already stripped text changes nothing |
| `Text.StartFrom` | scarping_app.py:19 | the left scan of `strip()` skips only whitespace and stops at the first non-whitespace character or the end |
| `Text.EndFrom` | scarping_app.py:19 | the right scan of `strip()` skips only whitespace, stops after the last non-whitespace character, and never crosses the left scan's stop |
| `Text.IsDigit` | scarping_app.py:48 | the characters `\d` accepts, taken as ASCII `0`-`9` |
| `Text.AllDigits` | scarping_app.py:48 | a string every character of which `\d` accepts |
| `Text.DigitValue` | scarping_app.py:50 | the value `int` gives one digit character |
| `Text.DecimalValue` | scarping_app.py:50 | `int(...)` of a digit string, leading zeros allowed, most significant digit first; its partner `Text.DecimalString` reads back through `Text.DecimalRoundTrip` |
| `Text.DecimalRoundTrip` | scarping_app.py:113 | reading back the decimal string of `n` with `int` gives `n` |
| `Text.DecimalStringInjective` | scarping_app.py:113 | distinct page numbers print as distinct strings |
| `Text.DecimalString` | scarping_app.py:113 | `str(n)` is non-empty, all digits, and starts with `0` only for `0` itself |
| `Text.DigitRun` | scarping_app.py:48 | the greedy `\d+` run: all digits, followed by a non-digit or the end |
| `Text.DigitRunUnique` | scarping_app.py:48 | the greedy `\d+` run is the only digit prefix followed by a non-digit or the end |
| `Rating.GroupMatchesAt` | scarping_app.py:48 | the pattern `Rated (\d+) out of 5 stars` matches at position `j` with a group of `k` characters: "Rated ", `k > 0` digits, then " out of 5 stars" |
| `Rating.MatchesAt` | scarping_app.py:48 | the pattern matches at `j` with the greedy group; by `Rating.GroupIsDigitRun` this is the same as matching with any group |
| `Rating.FindMatch` | scarping_app.py:48 | `re.search` scanning: the position found is a match and no earlier position from the start point is; None means no position matches |
| `Rating.GroupIsDigitRun` | scarping_app.py:48 | backtracking finds no other group: a match with any digit group is the match with the whole digit run, so group(1) is unique |
| `Rating.SearchRating` | scarping_app.py:48-50 | the pattern search and the decimal value of its group, before the digit limit; its contract is stated by `Rating.SearchRatingSpec` below |
| `Rating.GroupDigits` | scarping_app.py:50 | `group(1)` of a match is a non-empty run of digits |
| `Rating.GroupValue` | scarping_app.py:50 | the decimal value of `group(1)` of the match at `j` |
| `Rating.ExceedsDigitLimit` | scarping_app.py:50 | `int(rating.group(1))` raises: the leftmost match's group has more than 4300 digits |
| `Rating.ExceedsDigitLimitAtFound` | scarping_app.py:48-50 | whether `int` raises is decided by the group of the match `re.search` returns, and no match means no error |
| `Rating.ParseRating` | scarping_app.py:48-50 | `search` then `int(group(1))`: raises exactly when the leftmost match's group is longer than 4300 digits, reporting that group's length, and otherwise gives the same result as the search |
| `Rating.RatingTextMatch` | scarping_app.py:48-50 | the alt text written for `n` matches at its start with `str(n)` as the group |
| `Rating.ParseRatingRoundTrip` | scarping_app.py:48-50 | for a rating of at most 4300 digits the alt text `Rated <n> out of 5 stars` converts back to `n`; for a longer one `int` raises |
| `Rating.ParseRatingRejectsLongGroup` | scarping_app.py:48-50 | "Rated " + 4301 ones + " out of 5 stars" matches the pattern, but the conversion raises |
| `Rating.SearchRatingSpec` | scarping_app.py:48-50 | the parse yields a number exactly when the pattern occurs, and that number is the group value of the leftmost occurrence |
| `Rating.RatedAt` | scarping_app.py:47 | the substring "Rated" occurs at position `i` |
| `Rating.ContainsRated` | scarping_app.py:47 | `'Rated' in img['alt']`: "Rated" occurs at some position |
| `Rating.PrecheckIsRedundant` | scarping_app.py:47-51 | alt text without "Rated" never matches, so the `'Rated' in alt` pre-check cannot change the outcome |
| `Rating.SearchRatingRoundTrip` | scarping_app.py:48-50 | the alt text `Rated <n> out of 5 stars` is matched with the group value `n`, for every natural `n` (the conversion limit is `Rating.ParseRatingRoundTrip`'s concern) |
| `Rating.SearchRatingAcceptsFour` | scarping_app.py:48-50 | "Rated 4 out of 5 stars" gives 4 |
| `Rating.SearchRatingAcceptsTen` | scarping_app.py:48-50 | "Rated 10 out of 5 stars" gives 10: the number is not range-checked |
| `Rating.SearchRatingRejectsNoDigits` | scarping_app.py:48-50 | "Rated  out of 5 stars" gives None: the group needs at least one digit |
| `Scraping.AltMissing` | scarping_app.py:46-47 | the rating element has an image, and `img['alt']` raises `KeyError` because the image has no `alt` |
| `Scraping.RatingRaises` | scarping_app.py:46-50 | the rating lookup raises: no `alt` attribute, or a matched group over the digit limit |
| `Scraping.FindReviewRating` | scarping_app.py:40-51 | an exception exactly when the image exists without an `alt` (a `KeyError`) or its alt text matches with a group over the digit limit; None when the rating element or image is absent; otherwise the regex search on the alt text, with the pre-check taken or not |
| `Scraping.Details` | scarping_app.py:62-80 | faulted exactly when the rating lookup raises (missing `alt`, or too many digits); a record exactly when all five lookups succeed, holding the stripped title, body, date, the parsed rating and the stripped reviewer in that order; incomplete otherwise |
| `Scraping.CompleteRecordShape` | scarping_app.py:65-76 | a complete record's text fields carry no surrounding whitespace and its rating comes from a match of the pattern |
| `Scraping.ReviewScraper.constructor` | scarping_app.py:10-11 | the skip counter starts at 0 |
| `Scraping.ReviewScraper.ExtractReviewDetails` | scarping_app.py:62-80 | returns the record for a complete card and None otherwise; the counter grows by exactly 1 for an incomplete card and stays unchanged for a complete or faulted one, so it never decreases |
| `Scraping.ExtractAll` | scarping_app.py:88-89 | one extraction outcome per card, in card order |
| `Scraping.RecordsAppend` | scarping_app.py:87-93 | filtering two consecutive runs of cards is filtering each and concatenating, so records keep document order and skips add up |
| `Scraping.Records` | scarping_app.py:90-91 | the complete outcomes' records in order; stated by `Scraping.RecordsAppend` and `Scraping.RecordsMembers` |
| `Scraping.PageReviews` | scarping_app.py:82-93 | the records of a page's cards; stated by `Scraping.PageReviewsMembers` and by `Scraping.ReviewScraper.ExtractReviewsFromPage` |
| `Scraping.SkipCount` | scarping_app.py:71-74 | the number of outcomes that add one to `skipped_reviews`: the incomplete ones |
| `Scraping.FaultCount` | scarping_app.py:78-80 | the number of outcomes whose extraction raised and was swallowed by the handler |
| `Scraping.PageAccounting` | scarping_app.py:87-93 | kept, skipped and faulted cards add up to the number of cards, so a page yields at most one record per card |
| `Scraping.RecordsMembers` | scarping_app.py:88-91 | a record is kept exactly when some outcome produced it |
| `Scraping.PageReviewsMembers` | scarping_app.py:82-93 | a page's list holds exactly the records of its complete cards |
| `Scraping.ReviewScraper.ExtractReviewsFromPage` | scarping_app.py:82-93 | returns the page's complete records in document order (none for no cards) and adds the number of incomplete cards to the counter |
| `Scraping.ReviewScraper.FetchPage` | scarping_app.py:95-105 | a failed fetch gives an empty list and leaves the counter alone; a successful one gives the page's records and skips |
| `Scraping.PageContribution` | scarping_app.py:95-105 | what `fetch_page` returns for one fetch outcome: `[]` on failure, the page's records otherwise |
| `Scraping.PageSkips` | scarping_app.py:95-105 | what one page adds to the counter: nothing on failure, its incomplete cards otherwise |
| `Scraping.PageUrl` | scarping_app.py:113 | `f"{base_url}&page={page}"`; stated by `Scraping.PageUrlsAt` and `Scraping.PageUrlsDistinct` |
| `Scraping.PageUrls` | scarping_app.py:112-113 | there are `max_pages` URLs (none when it is below 1) |
| `Scraping.PageUrlsAt` | scarping_app.py:112-113 | the i-th URL is `base_url + "&page=" + str(i + 1)`, so pages are requested in increasing order from 1 |
| `Scraping.PageUrlsDistinct` | scarping_app.py:112-114 | no URL is requested twice |
| `Scraping.Contributions` | scarping_app.py:103-117 | one per-page list per URL, in page order: entry i is the records of the i-th URL's page, or empty when that fetch failed |
| `Scraping.TotalSkips` | scarping_app.py:114-117 | what all gathered fetches add to the counter: the sum of the pages' skips |
| `Scraping.Flatten` | scarping_app.py:118-119 | the `extend` loop: the page lists concatenated in page order; stated by `Scraping.FlattenLength` and `Scraping.FlattenAppend` |
| `Scraping.FlattenLength` | scarping_app.py:118-119 | the joined list is as long as all page lists together |
| `Scraping.FlattenAppend` | scarping_app.py:118-119 | joining respects page order: earlier pages' records come first |
| `Scraping.AllFetchesFail` | scarping_app.py:103-119 | when every fetch fails the scrape yields no record and adds no skip |
| `Scraping.BuildPageUrls` | scarping_app.py:112-114 | the URL loop yields exactly `Scraping.PageUrls`: one URL per page 1..max_pages, in order, none when max_pages is below 1 |
| `Scraping.JoinPages` | scarping_app.py:118-119 | the `extend` loop yields exactly `Scraping.Flatten` of the page lists: all records, page by page, in order |
| `Scraping.GatherStep` | scarping_app.py:117 | gathering one more page appends that page's list and adds its skips |
| `Scraping.ReviewScraper.ScrapeReviews` | scarping_app.py:107-121 | requests exactly the URLs of pages 1..max_pages in order, returns the per-page lists joined in page order (failed pages empty) and adds every page's skips to the counter |
| `WordCount.Keeps` | word_count_app.py:29 | the comprehension's test: `isalpha()` holds and the token is not a stopword |
| `WordCount.KeepWords` | word_count_app.py:29 | the comprehension over the token list; stated by `WordCount.KeepWordsCounts` and `WordCount.KeepWordsAppend` |
| `WordCount.KeepWordsCounts` | word_count_app.py:29 | each alphabetic non-stopword token keeps all its occurrences; every other token loses all of them |
| `WordCount.KeepWordsAppend` | word_count_app.py:29 | the filter works token by token, so kept tokens stay in tokenizer order |
| `WordCount.CleanAndTokenize` | word_count_app.py:26-30 | `clean_and_tokenize_spacy`; stated by `WordCount.CleanAndTokenizeMembers`, `WordCount.KeepWordsCounts` and `WordCount.KeepWordsAppend` |
| `WordCount.ReviewText` | word_count_app.py:39 | `str(Title) + " " + str(Body)` with string cells; used by `WordCount.Docs` |
| `WordCount.CleanAndTokenizeMembers` | word_count_app.py:26-30 | a word is returned exactly when it is a token of the lowercased text, alphabetic and not a stopword |
| `WordCount.ReviewWords` | word_count_app.py:39-42 | `set(clean_and_tokenize_spacy(text))` for one row: the words the filter returns for that row's text, each once |
| `WordCount.Docs` | word_count_app.py:37-42 | one word set per row, in row order, each the distinct filtered tokens of `Title + " " + Body` |
| `WordCount.DocFreqBounds` | word_count_app.py:45 | a word's count is at most the number of reviews, and positive exactly when some review contains it |
| `WordCount.DocFreq` | word_count_app.py:37-45 | the count a word should reach: the number of reviews whose word set contains it; stated by `WordCount.DocFreqBounds` and `WordCount.DocFreqSnoc` |
| `WordCount.DocFreqSnoc` | word_count_app.py:45 | one more review adds exactly one to each of its words and nothing to the others |
| `WordCount.CountOf` | word_count_app.py:45 | `Counter`'s count for a key, 0 for a missing key |
| `WordCount.CountsDocs` | word_count_app.py:37-45 | the counting loop's invariant: each word's count is its number of reviews so far, and the keys are exactly the words seen so far |
| `WordCount.UpdateCounter` | word_count_app.py:45 | `Counter.update` with a set: every word of the set gains exactly one, every other count is unchanged, new keys are exactly the set's words |
| `WordCount.CounterItems` | word_count_app.py:48 | `items()` lists each key once, with its count, and lists every key |
| `WordCount.SortedByCount` | word_count_app.py:48 | `sort_values(by='Count', ascending=False)`'s order: counts non-increasing along the table |
| `WordCount.DistinctWords` | word_count_app.py:48 | the table lists no word twice, as a `Counter`'s items do not |
| `WordCount.Insert` | word_count_app.py:48 | one step of the sort, placing an entry before the first one with a smaller count; stated by `WordCount.InsertKeepsOrder` |
| `WordCount.InsertKeepsOrder` | word_count_app.py:48 | insertion keeps the table sorted by count and adds exactly the one row |
| `WordCount.SortByCountDescending` | word_count_app.py:48 | the result is non-increasing by count and a permutation of the input; ties are left in no particular order |
| `WordCount.DistinctAfterPermutation` | word_count_app.py:48 | a permutation of a table that lists each word once lists each word once |
| `WordCount.CountReviewWords` | word_count_app.py:34-45 | after the loop over all rows each word's count is the number of reviews whose filtered word set contains it, and only such words are keys |
| `WordCount.CountUniqueWordsInReviews` | word_count_app.py:32-50 | the table is non-increasing by count, lists each word once, gives each word the number of reviews containing it (between 1 and the number of rows), and lists every word of every review |

## Left out

- HTML parsing: BeautifulSoup, the class-name selectors and `find_all` are replaced by the `Fragment` lookups; which elements the selectors match is not modelled.
- Network I/O: `ClientSession`, `session.get`, `raise_for_status` and `response.text()` become the `respond` parameter. The code sets no timeout of its own, but aiohttp's default total timeout of 300 s per request (the session's default `ClientTimeout`) applies; the resulting timeout error is caught by `fetch_page`'s handler and is one of the `Failure` outcomes `respond` may give.
- Concurrency and pacing: the loop appends coroutine objects, not started tasks, so nothing is requested before `asyncio.gather`; the 0.1 s `asyncio.sleep` after each append only delays the start of the whole batch by 0.1 s per page and does not space the requests. Neither the delay nor the interleaving of the gathered fetches is modelled; only the page-order join is.
- Scraping.ReviewScraper.ScrapeReviews: the default argument `max_pages=10` is not modelled; callers pass the page count explicitly.
- `scrape_reviews_sync`: a one-line `asyncio.run` wrapper with no logic of its own.
- `to_excel` in both files, DataFrame construction, the Excel upload and download, and the whole Streamlit interface (including the "no reviews found" and "enter a URL" messages): foreign library calls and UI.
- Console logging (`print`) in the exception handlers.
- Exceptions other than the missing `alt` attribute and the digit limit: the generic `except Exception` handlers may also catch library faults that cannot be expressed without the library.
- Scraping.Details: the digit limit is CPython's default of 4300; a limit changed through `PYTHONINTMAXSTRDIGITS` or `sys.set_int_max_str_digits`, and older interpreters without a limit, are not modelled.
- Rating.SearchRating: `\d` is taken as ASCII `0`-`9`; Python also accepts other Unicode decimal digits there and in `int(...)`.
- WordCount.Tools: tokenizer, `lower`, `isalpha` and the stopword lists (NLTK and spaCy, English and Italian) are taken as given, unconstrained functions and a set.
- WordCount.ReviewText: table cells are taken as strings; pandas renders empty cells as `nan` and numbers by `str`, which is not modelled.
- WordCount.CounterItems: the model lists the counter's keys in an unspecified order, not in first-insertion order; since the following sort is not stable this only affects the order of ties.
