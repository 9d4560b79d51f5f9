# twitter_scraping, modelled in Dafny

A model of `TwitterScraper`, the Selenium-driven search scraper of
`twitter_scraper.py`, with proofs of what it does. It covers:

- **The search URL** (`SearchUrl`). The query is the search text followed by
  the optional `(from:…)`, `since:…` and `until:…` clauses, each included only
  when its value is truthy. The parts are joined by single spaces.
  `urllib.parse.quote` then percent-encodes the result as section 2.1 of
  RFC 3986 describes. It keeps the unreserved characters of section 2.3 and
  `/`, and writes every other character as the `%XX` escapes of its UTF-8
  bytes. The result goes into the `https://x.com/search?q=…&f=live` template.
- **The article dictionary** (`ArticleStore`). `article_htmls` is an ordered
  dictionary: a key sequence in insertion order plus a map. One
  `collect_articles` pass goes over the elements the page shows.
  - A key is the `<time>` element's `datetime` attribute when there is one
    (possibly `None`), otherwise the article's HTML.
  - Empty and stale articles are skipped. Any other exception ends the pass.
  - The first article seen under a key wins.
  - The `tweet_time` local keeps its value from earlier articles of the same
    pass (line 159).
- **The scroll probe and the collection loop** (`Convergence`). `scroll_page`
  tries the amounts `inc`, `2*inc` and `inc // 2`, and compares each new page
  height with the height before the first scroll. The `while True` loop of
  `scrape` is a state machine with three exits:
  - the scroll bound (`max_scrolls`, tested for truthiness);
  - the no-new-content counter (`new_content_retries`);
  - a failed probe whose final re-collect still leaves the size at
    `prev_count`.
- **What happens after the loop** (`Timeline`). `save_progress` writes the
  snapshot text. `scrape` sorts stably by timestamp, with a missing timestamp
  sorting as `''`, and returns the HTML in that order. `format_articles`
  builds the rows, using the image rule of `get_relevant_info`.
- **The object itself** (`Scraper.TwitterScraper`), a class whose fields the
  methods update in place. Each method is proved against the pure model:
  - `CollectArticles` (a loop carrying `tweet_time`) against `CollectPass`;
  - `ScrollPage` against the probe's heights;
  - `Scrape`, whose loop calls `ScrapeRound` (one pass of the loop body),
    against `Run`;
  - `SaveProgress` against `SnapshotText`;
  - `FormatArticles` against `Timeline.FormatArticles`.

The browser is an oracle fixed in advance (`Convergence.Browser`). It lists:

- the elements each `collect_articles` call observes, in call order;
- the four page heights each `scroll_page` call would read.

The script is finite. Once it runs out, waiting for articles times out, which
is an empty observation, and the page no longer grows. This is what makes the
loop provably finite.

## Model

| member | source | states |
|---|---|---|
| SearchUrl.QueryString | twitter_scraper.py:50-60 | The parts list joined by single spaces. Its shape is proved by `QueryStringShape`, `AllClauses`, `PlainQuery` and `EmptyAccountDropped`. |
| SearchUrl.QueryStringShape | twitter_scraper.py:50-61 | The joined query is the search text, then each truthy clause after one space, in the order account, start date, end date. |
| SearchUrl.AllClauses | twitter_scraper.py:50-61 | With all three values non-empty, the query is `text (from:a) since:s until:u`. |
| SearchUrl.PlainQuery | twitter_scraper.py:50-61 | For every search text, with no optional value the query is that text alone. |
| SearchUrl.EmptyAccountDropped | twitter_scraper.py:52-53 | An empty account string is falsy: the query is the same as with no account. |
| SearchUrl.Quote | twitter_scraper.py:62 | The encoded query uses only unreserved characters, `/` and `%`, so it cannot contain the `&` that ends the parameter, and it is never shorter than its input. |
| SearchUrl.UnquoteQuote | twitter_scraper.py:62 | Percent-decoding the encoded query gives back exactly the UTF-8 bytes of the query. |
| SearchUrl.QuoteIdentity | twitter_scraper.py:62 | Encoding leaves a string unchanged if and only if every character is unreserved or `/`. |
| SearchUrl.ConstructSearchUrl | twitter_scraper.py:48-63 | `_construct_search_url`: the encoded query placed in the URL template. `SearchUrlRoundTrip` proves it splits back into prefix, `q` value and suffix, and that the value decodes to the query. |
| SearchUrl.SearchUrlRoundTrip | twitter_scraper.py:48-63 | The URL is exactly the fixed prefix, the `q` parameter and `&f=live`. The `q` parameter, read up to the first `&`, is the encoded query, and decoding it gives back the query's UTF-8 bytes. |
| ArticleStore.Insert | twitter_scraper.py:156-160 | `if key not in d: d[key] = …` on the ordered dictionary. `InsertSpec` proves what it keeps and adds. |
| ArticleStore.InsertSpec | twitter_scraper.py:156-160 | `if key not in d: d[key] = …` keeps the dictionary valid and keeps every old entry. A new key is appended last with the given value; an existing key leaves the dictionary unchanged. |
| ArticleStore.Absorb | twitter_scraper.py:144-162 | The loop body on one element, given the current `tweet_time`. `AbsorbGrows` proves it keeps the dictionary valid and adds only that element's key. |
| ArticleStore.CollectFrom | twitter_scraper.py:143-162 | The rest of the loop from some element on, ending at the first element whose read raises something other than a stale reference. `CollectFromComplete`, `CollectFromSound` and `CollectFromSplit` are proved about it. |
| ArticleStore.CollectPass | twitter_scraper.py:139-164 | `collect_articles`: the loop with `tweet_time` initially unbound. It is the partner of `CollectPassGrows`, `CollectPassIdempotent` and `CollectPassStores`. |
| ArticleStore.CollectPassGrows | twitter_scraper.py:139-164 | A pass keeps the dictionary valid, never removes or rewrites an entry, appends new keys after the old ones, and never shrinks it. |
| ArticleStore.CollectFromComplete | twitter_scraper.py:143-162 | Every non-empty, non-stale article before the first failure ends up with its key in the dictionary. |
| ArticleStore.CollectFromSound | twitter_scraper.py:143-162 | Every key in the dictionary after the pass was there before, or belongs to a non-empty, non-stale article before the first failure. |
| ArticleStore.CollectPassIdempotent | twitter_scraper.py:139-164 | Collecting the same observation twice gives the same dictionary as collecting it once. |
| ArticleStore.CollectPassStores | twitter_scraper.py:149-160 | For an article whose key is new at its position, the stored value is its HTML. The timestamp is its own `datetime` when it has a `<time>` element. Otherwise it is the last `datetime` read earlier in the same pass, or `None` if none was read. |
| ArticleStore.CarriedTimeIsLastRead | twitter_scraper.py:150-159 | After a run of elements, `tweet_time` holds the `datetime` of the last non-empty article with a `<time>` element. If there is none, it keeps the value it had before the run. |
| ArticleStore.CarriedTimeKept | twitter_scraper.py:150-159 | A run in which no non-empty article has a `<time>` element leaves `tweet_time` unchanged. |
| ArticleStore.CarriedTimeLast | twitter_scraper.py:150-159 | The last non-empty article with a `<time>` element decides `tweet_time` after the run. |
| ArticleStore.TimelessArticleTakesEarlierTime | twitter_scraper.py:159 | A timeless article after a timed one is stored with the earlier article's time. The same article first in the pass gets `None`. |
| Timeline.SnapshotText | twitter_scraper.py:166-174 | The text `save_progress` writes: one block per value, in dictionary order. `SnapshotExtends` and `EntryTextShape` are proved about it. |
| Timeline.SnapshotExtends | twitter_scraper.py:166-174 | The snapshot of a store that extends another starts with the other's snapshot. |
| Timeline.EntryTextShape | twitter_scraper.py:172-173 | Each block starts with `Timestamp: ` and ends with `\n---\n`. A missing timestamp prints as `None`. |
| Timeline.SortByTimestamp | twitter_scraper.py:226-229 | `sorted` with the `''`-defaulted timestamp key, as an insertion sort. `SortByTimestampSpec` proves it sorted, a permutation and stable. |
| Timeline.SortByTimestampSpec | twitter_scraper.py:226-229 | The sorted list is in ascending key order and is a permutation of the values. It is stable: for every key, the articles with that key keep their dictionary order. |
| Timeline.TimelessFirst | twitter_scraper.py:228 | An article without a timestamp sorts before every article with a non-empty one. |
| Timeline.ScrapeResult | twitter_scraper.py:226-230 | What `scrape` returns for a final dictionary. `ScrapeResultSpec` states it entry by entry. |
| Timeline.ScrapeResultSpec | twitter_scraper.py:226-230 | The result has one entry per stored article, and entry `i` is the HTML of the `i`-th article of that stable sorted permutation. |
| Timeline.RelevantImage | twitter_scraper.py:236-245 | The image rule of `get_relevant_info`. `ImageRuleExamples` and `FormatArticlesSpec` state it. |
| Timeline.FormatArticles | twitter_scraper.py:232-256 | The rows of `format_articles` over a sorted list, or the `KeyError` of the first bad image. `FormatArticlesSpec` states both outcomes. |
| Timeline.FormatArticlesSpec | twitter_scraper.py:232-256 | The call succeeds if and only if no article's second matched image lacks `src`. On success there is one row per sorted article, in order, with its id, timestamp, text and second image (or none). On failure it names the first offending article. |
| Timeline.ImageRuleExamples | twitter_scraper.py:239-244 | Zero or one match gives no image, three matches give the second, and a second match without `src` is an error. |
| Convergence.ProbeGrew | twitter_scraper.py:120-137 | `scroll_page` returns `True`: some scroll left the page taller than before the first one. `TwitterScraper.ScrollPage` is proved to report exactly this. |
| Convergence.Iterate | twitter_scraper.py:186-214 | Every iteration that does not end the loop uses up part of the browser script. |
| Convergence.Run | twitter_scraper.py:183-214 | The whole `while True` loop, which ends for every browser script. `RunGrows`, `RunScrollBound`, `RunCountsScrolls` and `RunStagnation` are proved about it. |
| Convergence.IterateGrows | twitter_scraper.py:191-212 | One iteration keeps the dictionary valid and only extends it. |
| Convergence.IterateExits | twitter_scraper.py:187-212 | Each exit, exactly when it is taken. The scroll bound: when set and reached, before collecting. Stagnation: when the first collect adds nothing and the counter reaches the limit, before scrolling. Page end: when neither holds, the probe fails and the re-collect leaves the size at `prev_count`. |
| Convergence.IterateContinues | twitter_scraper.py:197-214 | An iteration that continues adds one to `scroll_count` and uses one probe. It resets the counter when the first collect grew the dictionary and increments it otherwise, so the counter stays below the limit unless it is 0. |
| Convergence.RunGrows | twitter_scraper.py:186-214 | Over the whole loop the dictionary stays valid and only grows by appending. |
| Convergence.RunScrollBound | twitter_scraper.py:187-189 | With a truthy `max_scrolls`, `scroll_count` never exceeds it (or 0 if it is negative), and the bound exit leaves it exactly there. |
| Convergence.RunCountsScrolls | twitter_scraper.py:205-214 | The number of `scroll_page` calls is the number of completed iterations, plus one when the loop ends at the page end. |
| Convergence.RunStagnation | twitter_scraper.py:197-203 | The stagnation exit happens only with the counter at or above the limit and at least 1. Any other exit leaves it 0 or below the limit. |
| Convergence.ExhaustedStops | twitter_scraper.py:205-212 | Once the browser script is used up, the next iteration ends the loop without changing the dictionary. |
| Scraper.TwitterScraper.constructor | twitter_scraper.py:25-46 | A new scraper has the given search fields and scroll increment and an empty dictionary. It has no `sorted_articles` yet. |
| Scraper.TwitterScraper.CollectArticles | twitter_scraper.py:139-164 | The in-place pass leaves the dictionary exactly as `CollectPass` says, valid and extending the old one. |
| Scraper.TwitterScraper.ScrollPage | twitter_scraper.py:106-137 | The scrolls tried are a non-empty prefix of `[inc, 2*inc, inc // 2]`, stopping at the first that grows the page. It reports growth if and only if some scroll grew it, and tries all three whenever none did. |
| Scraper.TwitterScraper.SaveProgress | twitter_scraper.py:166-174 | The text written is one block per stored article, in dictionary order. |
| Scraper.TwitterScraper.ScrapeRound | twitter_scraper.py:187-214 | One pass of the loop body ends the loop, or hands over the next loop state, exactly as `Iterate` does. |
| Scraper.TwitterScraper.Scrape | twitter_scraper.py:176-230 | The loop ends with the dictionary and exit `Run` gives, extending the old dictionary. Then it writes the snapshot, sets `sorted_articles` to the stable sort, and returns their HTML in that order. |
| Scraper.TwitterScraper.FormatArticles | twitter_scraper.py:232-256 | Before any `scrape`, the call fails because `sorted_articles` does not exist. Otherwise the row-building loop gives exactly `Timeline.FormatArticles` over `sorted_articles`. |

## Left out

- Driver setup and page loading are not modelled (`setup_driver`, and the
  reload in `load_cookies`). The URL they load is `SearchUrl.ConstructSearchUrl`.
- `load_cookies` is not modelled: it reads a JSON file and calls into the
  browser.
- Waiting is modelled only by its outcome. `WebDriverWait` timing out is an
  empty observation. The `time.sleep` pauses, `initial_wait`,
  `scroll_pause_time` and the JavaScript scroll and lazy-load events are left
  out. Only the page heights they lead to are modelled.
- `scroll_attempt_limit` and `last_height` are not modelled: they are set in
  `__init__` but never read by the modelled code.
- `driver` is not a field of the model. Every call the modelled code makes on
  it is replaced by the `Convergence.Browser` oracle. That covers the element
  wait in `wait_for_elements` and the height reads and scrolls in
  `scroll_page`.
- `get_text()` and the BeautifulSoup image search are parameters of
  `FormatArticles`: `textOf` and `imagesOf`. Likewise, `uuid4()` is the `ids`
  parameter. HTML parsing is not modelled.
- The pandas `DataFrame` is the list of rows.
- `save_screenshots` is not modelled: screenshots only write files.
- Logging is not modelled, except that the `Exit` value names the message
  that ends the loop.
- `save_progress` is modelled by the text it writes. The file name from
  `datetime.now()` and the file I/O are left out.
- Exceptions escaping `scrape` are not modelled: the re-raise and the
  `finally` that quits the driver. Only the normal path is modelled.
- `collect_articles` treats an attribute read of `None` and `""` alike, since
  both are falsy. The model represents the HTML as a string, with `""`
  standing for both.
- `Convergence.Browser`: the browser is assumed to be a finite script. A
  browser that keeps producing new content forever is not modelled. In the
  source, with `max_scrolls` left at its default `None` and a page that keeps
  growing, the `while True` loop of `scrape` never exits. The model does not
  describe that run: `Convergence.Run` is defined only because every script
  ends.
- `SearchUrl.UnquoteQuote` proves the round trip at the level of UTF-8 bytes.
  UTF-8 decoding back to characters is not modelled.
- `app.py`, the Streamlit web page around the scraper, is not part of this model.
